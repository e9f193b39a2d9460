/** The generation counter: what a `Valid` verdict says about the swaps between a guard and its check. */
module TornReads {
  import opened Types
  import opened Chains
  import opened Snapshots
  import opened Changesets
  import opened ManagerCore
  import opened Systems
  import opened Coherence
  import opened Refinement
  import opened Linearizability
  import opened Memory

  /** The counter trails the stores by the one swap, if any, that is between its two steps. */
  ghost predicate Counted(s: System) {
    s.stores == s.generation + if s.writer.Stored? then 1 else 0
  }

  lemma CountedStep(keccak: Bytecode -> B256, s: System, m: Move)
    requires Counted(s)
    ensures Counted(SystemStep(keccak, s, m))
  {
  }

  lemma {:induction false} ExecuteCounted(keccak: Bytecode -> B256, s: System, moves: seq<Move>)
    requires Counted(s)
    ensures Counted(Execute(keccak, s, moves))
    decreases |moves|
  {
    if moves == [] {
    } else {
      ExecuteCounted(keccak, s, moves[..|moves| - 1]);
      CountedStep(keccak, Execute(keccak, s, moves[..|moves| - 1]), moves[|moves| - 1]);
    }
  }

  /** Stores and generation never go back, and with no store in between the snapshot is the same one. */
  lemma {:induction false} ExecuteMonotone(keccak: Bytecode -> B256, s: System, moves: seq<Move>, j: nat)
    requires j <= |moves|
    ensures var at, end := Execute(keccak, s, moves[..j]), Execute(keccak, s, moves);
            && at.stores <= end.stores && at.generation <= end.generation
            && (at.stores == end.stores ==> at.published == end.published)
    decreases |moves|
  {
    if j < |moves| {
      var front := moves[..|moves| - 1];
      assert front[..j] == moves[..j];
      ExecuteMonotone(keccak, s, front, j);
    } else {
      assert moves[..j] == moves;
    }
  }

  function UnderWay(s: System): nat {
    if s.writer.Waiting? then 0 else 1
  }

  lemma WriterStep(keccak: Bytecode -> B256, s: System, m: Move)
    ensures var s' := SystemStep(keccak, s, m);
            s'.generation + UnderWay(s') == s.generation + UnderWay(s) + if m.Notify? && s.writer.Waiting? then 1 else 0
  {
  }

  /** The generation counts completed swaps, and a swap completes once per notification processed. */
  lemma {:induction false} GenerationCountsNotifications(keccak: Bytecode -> B256, s: System, moves: seq<Move>)
    requires s.writer.Waiting? && s.generation == 0
    ensures var end := Execute(keccak, s, moves);
            Taken(keccak, s, moves) == end.generation + if end.writer.Waiting? then 0 else 1
    decreases |moves|
  {
    if moves == [] {
    } else {
      var front := moves[..|moves| - 1];
      GenerationCountsNotifications(keccak, s, front);
      WriterStep(keccak, Execute(keccak, s, front), moves[|moves| - 1]);
    }
  }

  /** How many notifications the writer has taken up. */
  function Taken(keccak: Bytecode -> B256, s: System, moves: seq<Move>): nat
    decreases |moves|
  {
    if moves == [] then 0
    else
      var front := moves[..|moves| - 1];
      Taken(keccak, s, front)
      + if moves[|moves| - 1].Notify? && Execute(keccak, s, front).writer.Waiting? then 1 else 0
  }

  /** `ExecuteMonotone` between two prefixes of one run. */
  lemma MonotoneBetween(keccak: Bytecode -> B256, s: System, moves: seq<Move>, i: nat, j: nat)
    requires i <= j <= |moves|
    ensures var at, end := Execute(keccak, s, moves[..i]), Execute(keccak, s, moves[..j]);
            && at.stores <= end.stores && at.generation <= end.generation
            && (at.stores == end.stores ==> at.published == end.published)
  {
    assert moves[..j][..i] == moves[..i];
    ExecuteMonotone(keccak, s, moves[..j], i);
  }

  /** The guard whose three loads were made after `g1`, `g2` and `g3` moves. */
  function GuardAt(keccak: Bytecode -> B256, start: System, moves: seq<Move>, g1: nat, g2: nat, g3: nat): StateGuard
    requires g1 <= g2 <= g3 <= |moves|
  {
    StateGuard(Execute(keccak, start, moves[..g1]).generation,
               Execute(keccak, start, moves[..g2]).published.blockHash,
               Execute(keccak, start, moves[..g3]).published.stale)
  }

  /** The verdict on it when the check's two loads are made after `c1` and `c2` moves. */
  function VerdictAt(keccak: Bytecode -> B256, start: System, moves: seq<Move>, guard: StateGuard, c1: nat, c2: nat)
    : StateValidity
    requires c1 <= c2 <= |moves|
  {
    Verdict(guard, Execute(keccak, start, moves[..c1]).published.stale, Execute(keccak, start, moves[..c2]).generation)
  }

  /** No swap that began after the first moment is between its two steps at the second. */
  predicate Settled(first: System, last: System) {
    last.writer.Stored? ==> first.writer.Stored?
  }

  /** The guard makes three loads and its check two more, each at its own moment of the run. A `Valid`
      verdict means at most one store happened since the guard's generation load, and none exactly when no
      swap that began after that load is between its two steps at the check. With none, the very same
      snapshot was published at every moment from the first load to the last, and it is live and the one the
      guard names. */
  lemma ValidMeansNotTorn(keccak: Bytecode -> B256, start: System, moves: seq<Move>,
                          g1: nat, g2: nat, g3: nat, c1: nat, c2: nat, m: nat)
    requires Counted(start) && g1 <= g2 <= g3 <= c1 <= c2 <= |moves| && g1 <= m <= c2
    requires VerdictAt(keccak, start, moves, GuardAt(keccak, start, moves, g1, g2, g3), c1, c2).Valid?
    ensures var first, last := Execute(keccak, start, moves[..g1]), Execute(keccak, start, moves[..c2]);
            && last.stores <= first.stores + 1
            && (last.stores == first.stores <==> Settled(first, last))
            && (Settled(first, last) ==>
                  && Execute(keccak, start, moves[..m]).published == last.published
                  && last.published.blockHash == GuardAt(keccak, start, moves, g1, g2, g3).blockHash
                  && !last.published.stale)
  {
    ExecuteCounted(keccak, start, moves[..g1]);
    ExecuteCounted(keccak, start, moves[..c2]);
    MonotoneBetween(keccak, start, moves, g1, g2);
    MonotoneBetween(keccak, start, moves, g1, g3);
    MonotoneBetween(keccak, start, moves, g1, m);
    MonotoneBetween(keccak, start, moves, g2, c2);
    MonotoneBetween(keccak, start, moves, g3, c2);
    MonotoneBetween(keccak, start, moves, m, c2);
  }

  /** The other verdicts, for a guard and a check made at any five moments of a run. The guard's own staleness
      comes first, staleness at the check next. `Changed` gives the generations at the two loads, and how many
      swaps completed between them; without a store since the guard, only a swap that was half done then can
      have changed it. Going from live to stale takes a store. */
  lemma VerdictsTell(keccak: Bytecode -> B256, start: System, moves: seq<Move>,
                     g1: nat, g2: nat, g3: nat, c1: nat, c2: nat)
    requires Counted(start) && g1 <= g2 <= g3 <= c1 <= c2 <= |moves|
    ensures var first, last := Execute(keccak, start, moves[..g1]), Execute(keccak, start, moves[..c2]);
            var atGuard, atCheck := Execute(keccak, start, moves[..g3]), Execute(keccak, start, moves[..c1]);
            var v := VerdictAt(keccak, start, moves, GuardAt(keccak, start, moves, g1, g2, g3), c1, c2);
            && (v == WasStale <==> atGuard.published.stale)
            && (v == BecameStale <==> !atGuard.published.stale && atCheck.published.stale)
            && (v == BecameStale ==> atGuard.stores < atCheck.stores)
            && (v == Changed(first.generation, last.generation)
                <==> !atGuard.published.stale && !atCheck.published.stale && first.generation < last.generation)
            && (v == Valid
                <==> !atGuard.published.stale && !atCheck.published.stale && first.generation == last.generation)
            && last.generation - first.generation == Swaps(keccak, start, moves, g1, c2)
            && (first.generation < last.generation ==> first.stores < last.stores || first.writer.Stored?)
  {
    ExecuteCounted(keccak, start, moves[..g1]);
    ExecuteCounted(keccak, start, moves[..c2]);
    MonotoneBetween(keccak, start, moves, g1, c2);
    MonotoneBetween(keccak, start, moves, g3, c1);
    SwapsAreCounted(keccak, start, moves, g1, c2);
  }

  /** How many swaps complete from move `i` up to move `j`. */
  function Swaps(keccak: Bytecode -> B256, start: System, moves: seq<Move>, i: nat, j: nat): nat
    requires i <= j <= |moves|
    decreases j
  {
    if i == j then 0
    else
      Swaps(keccak, start, moves, i, j - 1)
      + if moves[j - 1].Bump? && Execute(keccak, start, moves[..j - 1]).writer.Stored? then 1 else 0
  }

  lemma GenerationStep(keccak: Bytecode -> B256, s: System, m: Move)
    ensures SystemStep(keccak, s, m).generation == s.generation + if m.Bump? && s.writer.Stored? then 1 else 0
  {
  }

  lemma {:induction false} SwapsAreCounted(keccak: Bytecode -> B256, start: System, moves: seq<Move>, i: nat, j: nat)
    requires i <= j <= |moves|
    ensures Execute(keccak, start, moves[..j]).generation
            == Execute(keccak, start, moves[..i]).generation + Swaps(keccak, start, moves, i, j)
    decreases j
  {
    if i == j {
    } else {
      SwapsAreCounted(keccak, start, moves, i, j - 1);
      assert moves[..j][..j - 1] == moves[..j - 1];
      GenerationStep(keccak, Execute(keccak, start, moves[..j - 1]), moves[j - 1]);
    }
  }

  // ---------------------------------------------------------------------------------------------
  // What the guard is for

  /** The verdict is `Valid` and no swap begun since the guard is half done. */
  predicate ValidAndSettled(keccak: Bytecode -> B256, start: System, moves: seq<Move>,
                            g1: nat, g2: nat, g3: nat, c1: nat, c2: nat)
    requires g1 <= g2 <= g3 <= c1 <= c2 <= |moves|
  {
    && VerdictAt(keccak, start, moves, GuardAt(keccak, start, moves, g1, g2, g3), c1, c2).Valid?
    && Settled(Execute(keccak, start, moves[..g1]), Execute(keccak, start, moves[..c2]))
  }

  /** After a settled `Valid` verdict every account read that was loaded between guard and check, and has
      returned, returned the node's account at the very block the guard names. */
  lemma {:induction false} ValidCoversAccountReads(
    node: Node, a: nat, c: nat, g: nat, b: nat, moves: seq<Move>,
    g1: nat, g2: nat, g3: nat, c1: nat, c2: nat, k: nat, address: Address, v: Option<AccountInfo>)
    requires WellFormed(node) && NoCollisions(node) && AdmissibleRun(node, Start(a, c, g, b), moves)
    requires g1 <= g2 <= g3 <= c1 <= c2 <= |moves| && g1 <= k <= c2 && k < |moves|
    requires moves[k] == LoadFor(AccountRead(address))
    ensures ValidAndSettled(node.keccak, Start(a, c, g, b), moves, g1, g2, g3, c1, c2)
            && AccountReturned(Execute(node.keccak, Start(a, c, g, b), moves),
                               LoadOf(node.keccak, Start(a, c, g, b), moves, k), address, v)
            ==> v == Some(node.account(GuardAt(node.keccak, Start(a, c, g, b), moves, g1, g2, g3).blockHash,
                                   address))
  {
    if ValidAndSettled(node.keccak, Start(a, c, g, b), moves, g1, g2, g3, c1, c2) {
      ValidMeansNotTorn(node.keccak, Start(a, c, g, b), moves, g1, g2, g3, c1, c2, k);
      AccountReadsRefine(node, a, c, g, b, moves, k, address, v);
    }
  }

  /** The same for slots. */
  lemma {:induction false} ValidCoversStorageReads(
    node: Node, a: nat, c: nat, g: nat, b: nat, moves: seq<Move>,
    g1: nat, g2: nat, g3: nat, c1: nat, c2: nat, k: nat, address: Address, index: U256, v: U256)
    requires WellFormed(node) && NoCollisions(node) && AdmissibleRun(node, Start(a, c, g, b), moves)
    requires g1 <= g2 <= g3 <= c1 <= c2 <= |moves| && g1 <= k <= c2 && k < |moves|
    requires moves[k] == LoadFor(StorageRead(address, index))
    ensures ValidAndSettled(node.keccak, Start(a, c, g, b), moves, g1, g2, g3, c1, c2)
            && StorageReturned(Execute(node.keccak, Start(a, c, g, b), moves),
                               LoadOf(node.keccak, Start(a, c, g, b), moves, k), address, index, v)
            ==> v == node.slot(GuardAt(node.keccak, Start(a, c, g, b), moves, g1, g2, g3).blockHash,
                             address, index)
  {
    if ValidAndSettled(node.keccak, Start(a, c, g, b), moves, g1, g2, g3, c1, c2) {
      ValidMeansNotTorn(node.keccak, Start(a, c, g, b), moves, g1, g2, g3, c1, c2, k);
      StorageReadsRefine(node, a, c, g, b, moves, k, address, index, v);
    }
  }

  /** And, on connected runs, for block hashes at or below the guard's block. */
  lemma {:induction false} ValidCoversBlockHashReads(
    node: Node, a: nat, c: nat, g: nat, b: nat, moves: seq<Move>,
    g1: nat, g2: nat, g3: nat, c1: nat, c2: nat, k: nat, n: nat, v: B256)
    requires WellFormed(node) && NoCollisions(node) && ConnectedRun(node, Start(a, c, g, b), moves)
    requires g1 <= g2 <= g3 <= c1 <= c2 <= |moves| && g1 <= k <= c2 && k < |moves|
    requires moves[k] == LoadFor(BlockHashRead(n))
    ensures ValidAndSettled(node.keccak, Start(a, c, g, b), moves, g1, g2, g3, c1, c2)
            && BlockHashReturned(Execute(node.keccak, Start(a, c, g, b), moves),
                                 LoadOf(node.keccak, Start(a, c, g, b), moves, k), n, v)
            && n <= Number(node, GuardAt(node.keccak, Start(a, c, g, b), moves, g1, g2, g3).blockHash)
            ==> v == Ancestor(node, GuardAt(node.keccak, Start(a, c, g, b), moves, g1, g2, g3).blockHash, n)
  {
    if ValidAndSettled(node.keccak, Start(a, c, g, b), moves, g1, g2, g3, c1, c2) {
      ValidMeansNotTorn(node.keccak, Start(a, c, g, b), moves, g1, g2, g3, c1, c2, k);
      if BlockHashReturned(Execute(node.keccak, Start(a, c, g, b), moves),
                           LoadOf(node.keccak, Start(a, c, g, b), moves, k), n, v) {
        BlockHashReadsFollowTheChain(node, a, c, g, b, moves, k, n, v);
      }
    }
  }

  // ---------------------------------------------------------------------------------------------
  // The store a verdict can miss

  /** The first notification, and four flushes that find nothing in flight. */
  function FirstFlushes(chain: Chain): seq<Move> {
    [Notify(ChainCommitted(chain))]
    + [AccountMove(BeginFlush)] + [AccountMove(EndFlush(false))]
    + [CodeMove(BeginFlush)] + [CodeMove(EndFlush(false))]
    + [StorageMove(BeginFlush)] + [StorageMove(EndFlush(false))]
    + [BlockHashMove(BeginFlush)] + [BlockHashMove(EndFlush(false))]
  }

  lemma TwoMoves(keccak: Bytecode -> B256, start: System, moves: seq<Move>, m1: Move, m2: Move)
    ensures Execute(keccak, start, moves + [m1] + [m2])
            == SystemStep(keccak, SystemStep(keccak, Execute(keccak, start, moves), m1), m2)
  {
    ExecuteSnoc(keccak, start, moves, m1);
    ExecuteSnoc(keccak, start, moves + [m1], m2);
  }

  lemma AccountsFlush(keccak: Bytecode -> B256, s: System)
    requires s.accounts.phase.Idle? && s.accounts.flushRequested && s.accounts.inflight == 0
    ensures var draining := SystemStep(keccak, s, AccountMove(BeginFlush));
            var s' := SystemStep(keccak, draining, AccountMove(EndFlush(false)));
            s' == s.(accounts := s'.accounts) && s'.accounts.flushReply.Some?
  {
  }

  lemma CodeFlush(keccak: Bytecode -> B256, s: System)
    requires s.code.phase.Idle? && s.code.flushRequested && s.code.inflight == 0
    ensures var draining := SystemStep(keccak, s, CodeMove(BeginFlush));
            var s' := SystemStep(keccak, draining, CodeMove(EndFlush(false)));
            s' == s.(code := s'.code) && s'.code.flushReply.Some?
  {
  }

  lemma StorageFlush(keccak: Bytecode -> B256, s: System)
    requires s.storage.phase.Idle? && s.storage.flushRequested && s.storage.inflight == 0
    ensures var draining := SystemStep(keccak, s, StorageMove(BeginFlush));
            var s' := SystemStep(keccak, draining, StorageMove(EndFlush(false)));
            s' == s.(storage := s'.storage) && s'.storage.flushReply.Some?
  {
  }

  lemma BlockHashesFlush(keccak: Bytecode -> B256, s: System)
    requires s.blockHashes.phase.Idle? && s.blockHashes.flushRequested && s.blockHashes.inflight == 0
    ensures var draining := SystemStep(keccak, s, BlockHashMove(BeginFlush));
            var s' := SystemStep(keccak, draining, BlockHashMove(EndFlush(false)));
            s' == s.(blockHashes := s'.blockHashes) && s'.blockHashes.flushReply.Some?
  {
  }

  lemma FirstNotify(keccak: Bytecode -> B256, a: nat, c: nat, g: nat, b: nat, n: Notification)
    ensures var start := Start(a, c, g, b);
            var s := SystemStep(keccak, start, Notify(n));
            && s == start.(writer := Flushing(n, EMPTY_SNAPSHOT), accounts := s.accounts, code := s.code,
                           storage := s.storage, blockHashes := s.blockHashes)
            && s.accounts.phase.Idle? && s.accounts.flushRequested && s.accounts.inflight == 0
            && s.code.phase.Idle? && s.code.flushRequested && s.code.inflight == 0
            && s.storage.phase.Idle? && s.storage.flushRequested && s.storage.inflight == 0
            && s.blockHashes.phase.Idle? && s.blockHashes.flushRequested && s.blockHashes.inflight == 0
  {
  }

  lemma FirstFlushesReach(keccak: Bytecode -> B256, a: nat, c: nat, g: nat, b: nat, chain: Chain)
    ensures var s := Execute(keccak, Start(a, c, g, b), FirstFlushes(chain));
            && s.writer == Flushing(ChainCommitted(chain), EMPTY_SNAPSHOT) && AllFlushed(s)
            && s.published == EMPTY_SNAPSHOT && s.generation == 0 && s.stores == 0
  {
    var start := Start(a, c, g, b);
    var m1 := [Notify(ChainCommitted(chain))];
    FirstNotify(keccak, a, c, g, b, ChainCommitted(chain));
    assert Execute(keccak, start, m1) == SystemStep(keccak, start, m1[0]) by {
      assert m1[..0] == [];
    }
    var m3 := m1 + [AccountMove(BeginFlush)] + [AccountMove(EndFlush(false))];
    TwoMoves(keccak, start, m1, AccountMove(BeginFlush), AccountMove(EndFlush(false)));
    AccountsFlush(keccak, Execute(keccak, start, m1));
    var m5 := m3 + [CodeMove(BeginFlush)] + [CodeMove(EndFlush(false))];
    TwoMoves(keccak, start, m3, CodeMove(BeginFlush), CodeMove(EndFlush(false)));
    CodeFlush(keccak, Execute(keccak, start, m3));
    var m7 := m5 + [StorageMove(BeginFlush)] + [StorageMove(EndFlush(false))];
    TwoMoves(keccak, start, m5, StorageMove(BeginFlush), StorageMove(EndFlush(false)));
    StorageFlush(keccak, Execute(keccak, start, m5));
    TwoMoves(keccak, start, m7, BlockHashMove(BeginFlush), BlockHashMove(EndFlush(false)));
    BlockHashesFlush(keccak, Execute(keccak, start, m7));
  }

  lemma FirstStore(keccak: Bytecode -> B256, s: System, chain: Chain)
    requires s.writer.Flushing? && s.writer.n == ChainCommitted(chain) && AllFlushed(s)
    requires Accepted(s.writer.base, ChainCommitted(chain))
    ensures var s' := SystemStep(keccak, s, Publish);
            && s'.published.blockHash == Tip(chain).hash && !s'.published.stale
            && s'.generation == s.generation && s'.stores == s.stores + 1
  {
    CommitParts(s.writer.base, FlushedCaches(s), ChangesOf(chain), chain.blocks, TipOf(chain));
  }

  lemma FirstIsAccepted(chain: Chain)
    ensures Accepted(EMPTY_SNAPSHOT, ChainCommitted(chain))
  {
  }

  /** One store can be missed. Commit any chain to a fresh system and take a guard before its swap: between
      the swap's two steps the guard still checks as `Valid`, with another block already published. */
  lemma {:induction false} ValidCanMissOneStore(keccak: Bytecode -> B256, a: nat, c: nat, g: nat, b: nat, chain: Chain)
    ensures var start, moves := Start(a, c, g, b), FirstFlushes(chain) + [Publish];
            var first, last := Execute(keccak, start, moves[..9]), Execute(keccak, start, moves[..10]);
            && |moves| == 10
            && VerdictAt(keccak, start, moves, GuardAt(keccak, start, moves, 9, 9, 9), 10, 10).Valid?
            && first.published == EMPTY_SNAPSHOT && last.published.blockHash == Tip(chain).hash
            && last.stores == first.stores + 1
  {
    var start, before := Start(a, c, g, b), FirstFlushes(chain);
    var moves := before + [Publish];
    FirstFlushesReach(keccak, a, c, g, b, chain);
    ExecuteSnoc(keccak, start, before, Publish);
    FirstIsAccepted(chain);
    FirstStore(keccak, Execute(keccak, start, before), chain);
    assert |before| == 9 && moves[..9] == before && moves[..10] == moves;
  }
}
