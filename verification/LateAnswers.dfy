/** The timed-out flush in the composed system: what it abandons never joins a snapshot, not even when the tip
    is the block it was asked at. Nothing here depends on what the RPC answers. */
module LateAnswers {
  import opened Types
  import opened Coherence
  import opened ManagerCore
  import opened ManagerProofs
  import opened FlushProofs
  import opened AbandonedFetches
  import opened Managers
  import opened Systems
  import opened Parties

  lemma LateSafeAdvance<Req(!new), Key, Val, Resp(!new), Ctx, Side(!new)>(
    spec: FetchSpec<Req, Key, Val, Resp, Ctx, Side>, s: State<Req, Key, Val, Resp, Ctx, Side>,
    s': State<Req, Key, Val, Resp, Ctx, Side>, lost: set<nat>)
    requires Lawful(spec) && spec.guarded && LateSafe(spec, s, lost) && Advances(spec, s, s')
    ensures LateSafe(spec, s', lost)
  {
    if s' == s.(ctx := s'.ctx) {
      CtxIsApart(spec, s, s'.ctx, lost);
    } else {
      var a :| s' == Step(spec, s, a);
      LateSafeStep(spec, s, a, lost);
    }
  }

  lemma CtxIsApart<Req, Key, Val, Resp, Ctx, Side>(
    spec: FetchSpec<Req, Key, Val, Resp, Ctx, Side>, s: State<Req, Key, Val, Resp, Ctx, Side>, ctx: Ctx,
    lost: set<nat>)
    requires LateSafe(spec, s, lost)
    ensures LateSafe(spec, s.(ctx := ctx), lost)
  {
    var s' := s.(ctx := ctx);
    assert EpochExact(spec, s') && Abandoned(s', lost);
    assert Provenance(spec, s', Anything, AnyAnswer);
  }

  /** What the three guarded managers keep about the waiters each of them gave up on. */
  ghost predicate AllLateSafe(s: System, accounts: set<nat>, slots: set<nat>, hashes: set<nat>) {
    && LateSafe(ACCOUNT_SPEC, s.accounts, accounts)
    && LateSafe(STORAGE_SPEC, s.storage, slots)
    && LateSafe(BLOCK_HASH_SPEC, s.blockHashes, hashes)
  }

  lemma LateSafeMove(keccak: Bytecode -> B256, s: System, m: Move, la: set<nat>, ls: set<nat>, lb: set<nat>)
    requires AllLateSafe(s, la, ls, lb)
    ensures AllLateSafe(SystemStep(keccak, s, m), la, ls, lb)
  {
    var s' := SystemStep(keccak, s, m);
    SpecsAreLawful();
    AccountsAdvance(keccak, s, m);
    LateSafeAdvance(ACCOUNT_SPEC, s.accounts, s'.accounts, la);
    StorageAdvances(keccak, s, m);
    LateSafeAdvance(STORAGE_SPEC, s.storage, s'.storage, ls);
    BlockHashesAdvance(keccak, s, m);
    LateSafeAdvance(BLOCK_HASH_SPEC, s.blockHashes, s'.blockHashes, lb);
  }

  lemma {:induction false} ExecuteLateSafe(keccak: Bytecode -> B256, s: System, moves: seq<Move>, k: nat,
                                           la: set<nat>, ls: set<nat>, lb: set<nat>)
    requires k <= |moves| && AllLateSafe(Execute(keccak, s, moves[..k]), la, ls, lb)
    ensures AllLateSafe(Execute(keccak, s, moves), la, ls, lb)
    decreases |moves|
  {
    if k == |moves| {
      assert moves[..k] == moves;
    } else {
      var front := moves[..|moves| - 1];
      assert front[..k] == moves[..k];
      ExecuteLateSafe(keccak, s, front, k, la, ls, lb);
      LateSafeMove(keccak, Execute(keccak, s, front), moves[|moves| - 1], la, ls, lb);
    }
  }

  lemma StartLateSafe(a: nat, c: nat, g: nat, b: nat)
    ensures AllLateSafe(Start(a, c, g, b), {}, {}, {})
  {
    InitLateSafe(ACCOUNT_SPEC, [], ClampConcurrency(a));
    InitLateSafe(STORAGE_SPEC, (), ClampConcurrency(g));
    InitLateSafe(BLOCK_HASH_SPEC, (), ClampConcurrency(b));
  }

  lemma InitLateSafe<Req, Key, Val, Resp, Ctx, Side>(
    spec: FetchSpec<Req, Key, Val, Resp, Ctx, Side>, ctx: Ctx, limit: nat)
    ensures LateSafe(spec, Init(ctx, limit), {})
  {
  }

  /** What a merge adds to a map or changes in it was answered, under the tag merged at, to a waiter that no
      one gave up on. */
  ghost predicate JoinedByOthers<Req, Key, Val, Resp, Ctx, Side>(
    spec: FetchSpec<Req, Key, Val, Resp, Ctx, Side>, replies: seq<Reply<Req, Resp>>, lost: set<nat>, hash: B256,
    held: map<Key, Val>, merged: map<Key, Val>)
  {
    forall k :: k in merged && (k !in held || merged[k] != held[k]) ==>
      exists r :: r in replies && r.waiter.id !in lost && Answers(spec, r, hash, k, merged[k])
  }

  lemma MergeJoins<Req, Key, Val, Resp, Ctx, Side>(
    spec: FetchSpec<Req, Key, Val, Resp, Ctx, Side>, s: State<Req, Key, Val, Resp, Ctx, Side>, lost: set<nat>,
    hash: B256, held: map<Key, Val>, merged: map<Key, Val>)
    requires LateSafe(spec, s, lost) && s.flushReply.Some?
    requires merged == if s.flushReply.value.IsValidFor(hash) then held + s.flushReply.value.data else held
    ensures JoinedByOthers(spec, s.replies, lost, hash, held, merged)
  {
  }

  /** The system after `n` moves, with what every reachable system keeps. */
  lemma Reached(keccak: Bytecode -> B256, a: nat, c: nat, g: nat, b: nat, moves: seq<Move>, n: nat)
    returns (s: System)
    requires n < |moves|
    ensures s == Execute(keccak, Start(a, c, g, b), moves[..n])
    ensures Execute(keccak, Start(a, c, g, b), moves[..n + 1]) == SystemStep(keccak, s, moves[n])
    ensures AllLateSafe(s, {}, {}, {}) && AllExact(s)
  {
    s := Execute(keccak, Start(a, c, g, b), moves[..n]);
    assert moves[..n + 1][..n] == moves[..n];
    StartLateSafe(a, c, g, b);
    assert moves[..n][..0] == [];
    ExecuteLateSafe(keccak, Start(a, c, g, b), moves[..n], 0, {}, {}, {});
    ExecuteExact(keccak, a, c, g, b, moves[..n]);
  }

  lemma GivesUp<Req(!new), Key, Val, Resp(!new), Ctx, Side>(
    spec: FetchSpec<Req, Key, Val, Resp, Ctx, Side>, s: State<Req, Key, Val, Resp, Ctx, Side>, timedOut: bool)
    requires Lawful(spec) && spec.guarded && LateSafe(spec, s, {}) && Exact(s)
    requires s.phase.Draining? && (s.inflight <= 0 || timedOut)
    ensures var s' := Step(spec, s, EndFlush(timedOut)); LateSafe(spec, s', InFlight(s'))
  {
    assert Honest(spec, s, EndFlush(timedOut), Anything, AnyAnswer);
    ProvenanceStep(spec, s, EndFlush(timedOut), Anything, AnyAnswer);
    FlushGivesUp(spec, s, timedOut);
  }

  /** Move `n` ends an account flush, and at the end of the run, however much later, the writer is about to
      publish: every account that joins or changes in the merge was answered to a waiter which that flush did
      not abandon, and whose request was made at the block the writer builds on. */
  lemma {:induction false} AbandonedAccountsNeverJoin(keccak: Bytecode -> B256, a: nat, c: nat, g: nat, b: nat,
                                                      moves: seq<Move>, n: nat, timedOut: bool)
    requires n < |moves| && moves[n] == AccountMove(EndFlush(timedOut))
    requires var at := Execute(keccak, Start(a, c, g, b), moves[..n]).accounts;
             at.phase.Draining? && (at.inflight <= 0 || timedOut)
    requires var s := Execute(keccak, Start(a, c, g, b), moves); s.writer.Flushing? && AllFlushed(s)
    ensures var lost := InFlight(Execute(keccak, Start(a, c, g, b), moves[..n + 1]).accounts);
            AccountsJoinedByOthers(Execute(keccak, Start(a, c, g, b), moves), lost)
  {
    AccountsGivenUp(keccak, a, c, g, b, moves, n, timedOut);
    var lost := InFlight(Execute(keccak, Start(a, c, g, b), moves[..n + 1]).accounts);
    ExecuteLateSafe(keccak, Start(a, c, g, b), moves, n + 1, lost, {}, {});
    AccountsJoin(Execute(keccak, Start(a, c, g, b), moves), lost);
  }

  ghost predicate AccountsJoinedByOthers(s: System, lost: set<nat>)
    requires s.writer.Flushing? && AllFlushed(s)
  {
    var base := s.writer.base;
    JoinedByOthers(ACCOUNT_SPEC, s.accounts.replies, lost, base.blockHash, base.accounts,
                   Merged(base, FlushedCaches(s)).accounts)
  }

  lemma AccountsJoin(s: System, lost: set<nat>)
    requires LateSafe(ACCOUNT_SPEC, s.accounts, lost) && s.writer.Flushing? && AllFlushed(s)
    ensures AccountsJoinedByOthers(s, lost)
  {
    var base := s.writer.base;
    MergeJoins(ACCOUNT_SPEC, s.accounts, lost, base.blockHash, base.accounts,
               Merged(base, FlushedCaches(s)).accounts);
  }

  lemma AccountsGivenUp(keccak: Bytecode -> B256, a: nat, c: nat, g: nat, b: nat, moves: seq<Move>, n: nat,
                      timedOut: bool)
    requires n < |moves| && moves[n] == AccountMove(EndFlush(timedOut))
    requires var at := Execute(keccak, Start(a, c, g, b), moves[..n]).accounts;
             at.phase.Draining? && (at.inflight <= 0 || timedOut)
    ensures var s := Execute(keccak, Start(a, c, g, b), moves[..n + 1]);
            var lost := InFlight(s.accounts);
            AllLateSafe(s, lost, {}, {})
  {
    var before := Reached(keccak, a, c, g, b, moves, n);
    AccountsGivenUpBy(before, timedOut);
    AccountsFlushEnds(keccak, before, timedOut);
  }

  lemma AccountsFlushEnds(keccak: Bytecode -> B256, s: System, timedOut: bool)
    ensures SystemStep(keccak, s, AccountMove(EndFlush(timedOut)))
            == s.(accounts := Step(ACCOUNT_SPEC, s.accounts, EndFlush(timedOut)))
  {
  }

  lemma AccountsGivenUpBy(s: System, timedOut: bool)
    requires AllLateSafe(s, {}, {}, {}) && Exact(s.accounts)
    requires s.accounts.phase.Draining? && (s.accounts.inflight <= 0 || timedOut)
    ensures var s' := s.(accounts := Step(ACCOUNT_SPEC, s.accounts, EndFlush(timedOut)));
            var lost := InFlight(s'.accounts);
            AllLateSafe(s', lost, {}, {})
  {
    SpecsAreLawful();
    GivesUp(ACCOUNT_SPEC, s.accounts, timedOut);
  }

  /** The same for slots. */
  lemma {:induction false} AbandonedSlotsNeverJoin(keccak: Bytecode -> B256, a: nat, c: nat, g: nat, b: nat,
                                                      moves: seq<Move>, n: nat, timedOut: bool)
    requires n < |moves| && moves[n] == StorageMove(EndFlush(timedOut))
    requires var at := Execute(keccak, Start(a, c, g, b), moves[..n]).storage;
             at.phase.Draining? && (at.inflight <= 0 || timedOut)
    requires var s := Execute(keccak, Start(a, c, g, b), moves); s.writer.Flushing? && AllFlushed(s)
    ensures var lost := InFlight(Execute(keccak, Start(a, c, g, b), moves[..n + 1]).storage);
            SlotsJoinedByOthers(Execute(keccak, Start(a, c, g, b), moves), lost)
  {
    SlotsGivenUp(keccak, a, c, g, b, moves, n, timedOut);
    var lost := InFlight(Execute(keccak, Start(a, c, g, b), moves[..n + 1]).storage);
    ExecuteLateSafe(keccak, Start(a, c, g, b), moves, n + 1, {}, lost, {});
    SlotsJoin(Execute(keccak, Start(a, c, g, b), moves), lost);
  }

  ghost predicate SlotsJoinedByOthers(s: System, lost: set<nat>)
    requires s.writer.Flushing? && AllFlushed(s)
  {
    var base := s.writer.base;
    JoinedByOthers(STORAGE_SPEC, s.storage.replies, lost, base.blockHash, base.storage,
                   Merged(base, FlushedCaches(s)).storage)
  }

  lemma SlotsJoin(s: System, lost: set<nat>)
    requires LateSafe(STORAGE_SPEC, s.storage, lost) && s.writer.Flushing? && AllFlushed(s)
    ensures SlotsJoinedByOthers(s, lost)
  {
    var base := s.writer.base;
    MergeJoins(STORAGE_SPEC, s.storage, lost, base.blockHash, base.storage,
               Merged(base, FlushedCaches(s)).storage);
  }

  lemma SlotsGivenUp(keccak: Bytecode -> B256, a: nat, c: nat, g: nat, b: nat, moves: seq<Move>, n: nat,
                      timedOut: bool)
    requires n < |moves| && moves[n] == StorageMove(EndFlush(timedOut))
    requires var at := Execute(keccak, Start(a, c, g, b), moves[..n]).storage;
             at.phase.Draining? && (at.inflight <= 0 || timedOut)
    ensures var s := Execute(keccak, Start(a, c, g, b), moves[..n + 1]);
            var lost := InFlight(s.storage);
            AllLateSafe(s, {}, lost, {})
  {
    var before := Reached(keccak, a, c, g, b, moves, n);
    SlotsGivenUpBy(before, timedOut);
    SlotsFlushEnds(keccak, before, timedOut);
  }

  lemma SlotsFlushEnds(keccak: Bytecode -> B256, s: System, timedOut: bool)
    ensures SystemStep(keccak, s, StorageMove(EndFlush(timedOut)))
            == s.(storage := Step(STORAGE_SPEC, s.storage, EndFlush(timedOut)))
  {
  }

  lemma SlotsGivenUpBy(s: System, timedOut: bool)
    requires AllLateSafe(s, {}, {}, {}) && Exact(s.storage)
    requires s.storage.phase.Draining? && (s.storage.inflight <= 0 || timedOut)
    ensures var s' := s.(storage := Step(STORAGE_SPEC, s.storage, EndFlush(timedOut)));
            var lost := InFlight(s'.storage);
            AllLateSafe(s', {}, lost, {})
  {
    SpecsAreLawful();
    GivesUp(STORAGE_SPEC, s.storage, timedOut);
  }

  /** And for block hashes. */
  lemma {:induction false} AbandonedBlockHashesNeverJoin(keccak: Bytecode -> B256, a: nat, c: nat, g: nat, b: nat,
                                                      moves: seq<Move>, n: nat, timedOut: bool)
    requires n < |moves| && moves[n] == BlockHashMove(EndFlush(timedOut))
    requires var at := Execute(keccak, Start(a, c, g, b), moves[..n]).blockHashes;
             at.phase.Draining? && (at.inflight <= 0 || timedOut)
    requires var s := Execute(keccak, Start(a, c, g, b), moves); s.writer.Flushing? && AllFlushed(s)
    ensures var lost := InFlight(Execute(keccak, Start(a, c, g, b), moves[..n + 1]).blockHashes);
            BlockHashesJoinedByOthers(Execute(keccak, Start(a, c, g, b), moves), lost)
  {
    BlockHashesGivenUp(keccak, a, c, g, b, moves, n, timedOut);
    var lost := InFlight(Execute(keccak, Start(a, c, g, b), moves[..n + 1]).blockHashes);
    ExecuteLateSafe(keccak, Start(a, c, g, b), moves, n + 1, {}, {}, lost);
    BlockHashesJoin(Execute(keccak, Start(a, c, g, b), moves), lost);
  }

  ghost predicate BlockHashesJoinedByOthers(s: System, lost: set<nat>)
    requires s.writer.Flushing? && AllFlushed(s)
  {
    var base := s.writer.base;
    JoinedByOthers(BLOCK_HASH_SPEC, s.blockHashes.replies, lost, base.blockHash, base.blockHashes,
                   Merged(base, FlushedCaches(s)).blockHashes)
  }

  lemma BlockHashesJoin(s: System, lost: set<nat>)
    requires LateSafe(BLOCK_HASH_SPEC, s.blockHashes, lost) && s.writer.Flushing? && AllFlushed(s)
    ensures BlockHashesJoinedByOthers(s, lost)
  {
    var base := s.writer.base;
    MergeJoins(BLOCK_HASH_SPEC, s.blockHashes, lost, base.blockHash, base.blockHashes,
               Merged(base, FlushedCaches(s)).blockHashes);
  }

  lemma BlockHashesGivenUp(keccak: Bytecode -> B256, a: nat, c: nat, g: nat, b: nat, moves: seq<Move>, n: nat,
                      timedOut: bool)
    requires n < |moves| && moves[n] == BlockHashMove(EndFlush(timedOut))
    requires var at := Execute(keccak, Start(a, c, g, b), moves[..n]).blockHashes;
             at.phase.Draining? && (at.inflight <= 0 || timedOut)
    ensures var s := Execute(keccak, Start(a, c, g, b), moves[..n + 1]);
            var lost := InFlight(s.blockHashes);
            AllLateSafe(s, {}, {}, lost)
  {
    var before := Reached(keccak, a, c, g, b, moves, n);
    BlockHashesGivenUpBy(before, timedOut);
    BlockHashesFlushEnds(keccak, before, timedOut);
  }

  lemma BlockHashesFlushEnds(keccak: Bytecode -> B256, s: System, timedOut: bool)
    ensures SystemStep(keccak, s, BlockHashMove(EndFlush(timedOut)))
            == s.(blockHashes := Step(BLOCK_HASH_SPEC, s.blockHashes, EndFlush(timedOut)))
  {
  }

  lemma BlockHashesGivenUpBy(s: System, timedOut: bool)
    requires AllLateSafe(s, {}, {}, {}) && Exact(s.blockHashes)
    requires s.blockHashes.phase.Draining? && (s.blockHashes.inflight <= 0 || timedOut)
    ensures var s' := s.(blockHashes := Step(BLOCK_HASH_SPEC, s.blockHashes, EndFlush(timedOut)));
            var lost := InFlight(s'.blockHashes);
            AllLateSafe(s', {}, {}, lost)
  {
    SpecsAreLawful();
    GivesUp(BLOCK_HASH_SPEC, s.blockHashes, timedOut);
  }
}
