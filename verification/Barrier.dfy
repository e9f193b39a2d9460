/** The flush as a barrier between the managers and the writer: every published snapshot is built from
    caches handed over after its notification arrived, and a fetched entry joins a snapshot only while
    the tip is the block the entry was asked at. Nothing here depends on what the RPC answers. */
module Barrier {
  import opened Types
  import opened Chains
  import opened Snapshots
  import opened Transitions
  import opened Changesets
  import opened Coherence
  import opened ManagerCore
  import opened ManagerProofs
  import opened FlushProofs
  import opened Managers
  import opened Systems
  import opened Parties

  /** A flush has been requested of this manager and not been answered. */
  ghost predicate Pending<Req, Key, Val, Resp, Ctx, Side>(s: State<Req, Key, Val, Resp, Ctx, Side>) {
    s.flushRequested || s.phase.Draining?
  }

  ghost predicate Quiet<Req, Key, Val, Resp, Ctx, Side>(s: State<Req, Key, Val, Resp, Ctx, Side>) {
    !s.flushRequested && !s.phase.Draining?
  }

  /** Asked and unanswered, or answered and quiet. */
  ghost predicate Between<Req, Key, Val, Resp, Ctx, Side>(s: State<Req, Key, Val, Resp, Ctx, Side>) {
    && !(s.flushRequested && s.phase.Draining?)
    && (Pending(s) <==> s.flushReply.None?)
  }

  lemma OwnKeepsFlush<Req, Key, Val, Resp, Ctx, Side>(
    spec: FetchSpec<Req, Key, Val, Resp, Ctx, Side>, s: State<Req, Key, Val, Resp, Ctx, Side>,
    a: Action<Req, Resp, Side>)
    requires !a.RequestFlush?
    ensures Quiet(s) ==> Quiet(Step(spec, s, a)) && Step(spec, s, a).flushReply == s.flushReply
    ensures Between(s) ==> Between(Step(spec, s, a))
    ensures Step(spec, s, a).flushReply != s.flushReply ==>
              && a.EndFlush? && s.phase.Draining?
              && Step(spec, s, a).flushReply == Some(TaggedCache(s.cacheHash, s.cache))
  {
  }

  ghost predicate Protocol(s: System) {
    if s.writer.Flushing?
    then Between(s.accounts) && Between(s.code) && Between(s.storage) && Between(s.blockHashes)
    else Quiet(s.accounts) && Quiet(s.code) && Quiet(s.storage) && Quiet(s.blockHashes)
  }

  lemma OwnProtocol(keccak: Bytecode -> B256, s: System, m: Move)
    requires Protocol(s) && (m.AccountMove? || m.StorageMove? || m.BlockHashMove? || m.CodeMove?)
    ensures Protocol(SystemStep(keccak, s, m))
  {
    match m
    case AccountMove(a) => if Own(a) { OwnKeepsFlush(ACCOUNT_SPEC, s.accounts, a); }
    case StorageMove(a) => if Own(a) { OwnKeepsFlush(STORAGE_SPEC, s.storage, a); }
    case BlockHashMove(a) => if Own(a) { OwnKeepsFlush(BLOCK_HASH_SPEC, s.blockHashes, a); }
    case CodeMove(a) => if Own(a) { OwnKeepsFlush(CODE_SPEC, s.code, a); }
  }

  lemma WriterProtocol(keccak: Bytecode -> B256, s: System, m: Move)
    requires Protocol(s) && (m.Notify? || m.Publish? || m.Bump?)
    ensures Protocol(SystemStep(keccak, s, m))
  {
  }

  lemma {:induction false} ProtocolStep(keccak: Bytecode -> B256, s: System, m: Move)
    requires Protocol(s)
    ensures Protocol(SystemStep(keccak, s, m))
  {
    match m
    case Submit(i) => if i < |s.loads| { SubmitProtocol(s, i); }
    case Notify(_) => WriterProtocol(keccak, s, m);
    case Publish => WriterProtocol(keccak, s, m);
    case Bump => WriterProtocol(keccak, s, m);
    case LoadFor(_) => OthersProtocol(keccak, s, m);
    case CodeAnswer(_, _) => OthersProtocol(keccak, s, m);
    case ForwardRegistration => OthersProtocol(keccak, s, m);
    case _ => OwnProtocol(keccak, s, m);
  }

  lemma OthersProtocol(keccak: Bytecode -> B256, s: System, m: Move)
    requires Protocol(s) && (m.LoadFor? || m.CodeAnswer? || m.ForwardRegistration?)
    ensures Protocol(SystemStep(keccak, s, m))
  {
  }

  lemma SubmitProtocol(s: System, i: nat)
    requires Protocol(s) && i < |s.loads|
    ensures Protocol(SubmitRead(s, i)) && SubmitRead(s, i).writer == s.writer
  {
  }

  lemma {:induction false} ExecuteProtocol(keccak: Bytecode -> B256, s: System, moves: seq<Move>)
    requires Protocol(s)
    ensures Protocol(Execute(keccak, s, moves))
    decreases |moves|
  {
    if moves == [] {
    } else {
      ExecuteProtocol(keccak, s, moves[..|moves| - 1]);
      ProtocolStep(keccak, Execute(keccak, s, moves[..|moves| - 1]), moves[|moves| - 1]);
    }
  }

  /** Taking up a notification opens four fresh flushes, so what the writer later builds with was handed
      over after the notification arrived: nothing is left over from an earlier flush. */
  lemma NotifyOpensFreshFlushes(keccak: Bytecode -> B256, a: nat, c: nat, g: nat, b: nat, moves: seq<Move>,
                                n: Notification)
    requires Execute(keccak, Start(a, c, g, b), moves).writer.Waiting?
    ensures var s := SystemStep(keccak, Execute(keccak, Start(a, c, g, b), moves), Notify(n));
            && s.writer == Flushing(n, s.published)
            && s.accounts.flushRequested && s.code.flushRequested
            && s.storage.flushRequested && s.blockHashes.flushRequested
            && s.accounts.flushReply.None? && s.code.flushReply.None?
            && s.storage.flushReply.None? && s.blockHashes.flushReply.None?
  {
    ExecuteProtocol(keccak, Start(a, c, g, b), moves);
  }

  // ---------------------------------------------------------------------------------------------
  // Superseded requests

  /** In state `s` the action is the RPC's answer to a fetch for this tag and key. */
  ghost predicate Gives<Req, Key, Val, Resp, Ctx, Side>(
    spec: FetchSpec<Req, Key, Val, Resp, Ctx, Side>, s: State<Req, Key, Val, Resp, Ctx, Side>,
    a: Action<Req, Resp, Side>, tag: Option<B256>, key: Key, resp: Resp)
  {
    && a.FinishFetch? && a.result == Ok(resp) && a.task < |s.running|
    && spec.tag(s.running[a.task].waiter.request) == tag && spec.key(s.running[a.task].waiter.request) == key
  }

  /** Every cached, flushed and replied value stands in `fits`, whoever asked for it. */
  ghost predicate From<Req, Key, Val, Resp, Ctx, Side>(
    spec: FetchSpec<Req, Key, Val, Resp, Ctx, Side>, s: State<Req, Key, Val, Resp, Ctx, Side>,
    fits: (Option<B256>, Key, Resp) -> bool)
  {
    Provenance(spec, s, Anything, fits)
  }

  lemma FromStep<Req(!new), Key(!new), Val, Resp(!new), Ctx, Side>(
    spec: FetchSpec<Req, Key, Val, Resp, Ctx, Side>, s: State<Req, Key, Val, Resp, Ctx, Side>,
    a: Action<Req, Resp, Side>, fits: (Option<B256>, Key, Resp) -> bool)
    requires Lawful(spec) && From(spec, s, fits)
    requires forall tag, key, resp :: Gives(spec, s, a, tag, key, resp) ==> fits(tag, key, resp)
    ensures From(spec, Step(spec, s, a), fits)
  {
    if a.FinishFetch? && a.task < |s.running| && a.result.Ok? {
      var req := s.running[a.task].waiter.request;
      assert Gives(spec, s, a, spec.tag(req), spec.key(req), a.result.value);
    }
    ProvenanceStep(spec, s, a, Anything, fits);
  }

  lemma FromApart<Req(!new), Key(!new), Val, Resp(!new), Ctx, Side(!new)>(
    spec: FetchSpec<Req, Key, Val, Resp, Ctx, Side>, s: State<Req, Key, Val, Resp, Ctx, Side>,
    s': State<Req, Key, Val, Resp, Ctx, Side>, fits: (Option<B256>, Key, Resp) -> bool)
    requires Lawful(spec) && From(spec, s, fits) && Apart(spec, s, s')
    ensures From(spec, s', fits)
  {
    if s' != s.(ctx := s'.ctx) {
      var a: Action<Req, Resp, Side> :| !a.FinishFetch? && s' == Step(spec, s, a);
      FromStep(spec, s, a, fits);
    }
  }

  /** At move `n` the RPC answered this to a request for `k` tagged `tag`. */
  ghost predicate AccountGaveAt(keccak: Bytecode -> B256, start: System, moves: seq<Move>, n: nat, tag: Option<B256>,
                            k: Address, resp: Option<AccountInfo>)
  {
    && n < |moves| && moves[n].AccountMove?
    && Gives(ACCOUNT_SPEC, Execute(keccak, start, moves[..n]).accounts, moves[n].accountAction, tag, k, resp)
  }

  ghost predicate AccountGave(keccak: Bytecode -> B256, start: System, moves: seq<Move>, tag: Option<B256>,
                          k: Address, resp: Option<AccountInfo>)
  {
    exists n: nat :: AccountGaveAt(keccak, start, moves, n, tag, k, resp)
  }

  /** At move `n` the RPC answered this to a request for `k` tagged `tag`. */
  ghost predicate SlotGaveAt(keccak: Bytecode -> B256, start: System, moves: seq<Move>, n: nat, tag: Option<B256>,
                            k: (Address, U256), resp: U256)
  {
    && n < |moves| && moves[n].StorageMove?
    && Gives(STORAGE_SPEC, Execute(keccak, start, moves[..n]).storage, moves[n].storageAction, tag, k, resp)
  }

  ghost predicate SlotGave(keccak: Bytecode -> B256, start: System, moves: seq<Move>, tag: Option<B256>,
                          k: (Address, U256), resp: U256)
  {
    exists n: nat :: SlotGaveAt(keccak, start, moves, n, tag, k, resp)
  }

  /** At move `n` the RPC answered this to a request for `k` tagged `tag`. */
  ghost predicate HashGaveAt(keccak: Bytecode -> B256, start: System, moves: seq<Move>, n: nat, tag: Option<B256>,
                            k: nat, resp: B256)
  {
    && n < |moves| && moves[n].BlockHashMove?
    && Gives(BLOCK_HASH_SPEC, Execute(keccak, start, moves[..n]).blockHashes, moves[n].blockHashAction, tag, k, resp)
  }

  ghost predicate HashGave(keccak: Bytecode -> B256, start: System, moves: seq<Move>, tag: Option<B256>,
                          k: nat, resp: B256)
  {
    exists n: nat :: HashGaveAt(keccak, start, moves, n, tag, k, resp)
  }

  ghost predicate Sourced(keccak: Bytecode -> B256, start: System, moves: seq<Move>, s: System) {
    && From(ACCOUNT_SPEC, s.accounts, (tag, k, resp) => AccountGave(keccak, start, moves, tag, k, resp))
    && From(STORAGE_SPEC, s.storage, (tag, k, resp) => SlotGave(keccak, start, moves, tag, k, resp))
    && From(BLOCK_HASH_SPEC, s.blockHashes, (tag, k, resp) => HashGave(keccak, start, moves, tag, k, resp))
  }

  lemma AccountsSourced(keccak: Bytecode -> B256, start: System, moves: seq<Move>, n: nat)
    requires n < |moves| && Sourced(keccak, start, moves, Execute(keccak, start, moves[..n]))
    ensures From(ACCOUNT_SPEC, SystemStep(keccak, Execute(keccak, start, moves[..n]), moves[n]).accounts,
                 (tag, k, resp) => AccountGave(keccak, start, moves, tag, k, resp))
  {
    SpecsAreLawful();
    var s := Execute(keccak, start, moves[..n]);
    var fits := (tag, k, resp) => AccountGave(keccak, start, moves, tag, k, resp);
    AccountsAdvance(keccak, s, moves[n]);
    if moves[n].AccountMove? && Own(moves[n].accountAction) {
      var a := moves[n].accountAction;
      forall tag, k, resp | Gives(ACCOUNT_SPEC, s.accounts, a, tag, k, resp)
        ensures fits(tag, k, resp)
      {
        assert AccountGaveAt(keccak, start, moves, n, tag, k, resp);
      }
      FromStep(ACCOUNT_SPEC, s.accounts, a, fits);
    } else {
      FromApart(ACCOUNT_SPEC, s.accounts, SystemStep(keccak, s, moves[n]).accounts, fits);
    }
  }

  lemma SlotsSourced(keccak: Bytecode -> B256, start: System, moves: seq<Move>, n: nat)
    requires n < |moves| && Sourced(keccak, start, moves, Execute(keccak, start, moves[..n]))
    ensures From(STORAGE_SPEC, SystemStep(keccak, Execute(keccak, start, moves[..n]), moves[n]).storage,
                 (tag, k, resp) => SlotGave(keccak, start, moves, tag, k, resp))
  {
    SpecsAreLawful();
    var s := Execute(keccak, start, moves[..n]);
    var fits := (tag, k, resp) => SlotGave(keccak, start, moves, tag, k, resp);
    StorageAdvances(keccak, s, moves[n]);
    if moves[n].StorageMove? && Own(moves[n].storageAction) {
      var a := moves[n].storageAction;
      forall tag, k, resp | Gives(STORAGE_SPEC, s.storage, a, tag, k, resp)
        ensures fits(tag, k, resp)
      {
        assert SlotGaveAt(keccak, start, moves, n, tag, k, resp);
      }
      FromStep(STORAGE_SPEC, s.storage, a, fits);
    } else {
      FromApart(STORAGE_SPEC, s.storage, SystemStep(keccak, s, moves[n]).storage, fits);
    }
  }

  lemma HashesSourced(keccak: Bytecode -> B256, start: System, moves: seq<Move>, n: nat)
    requires n < |moves| && Sourced(keccak, start, moves, Execute(keccak, start, moves[..n]))
    ensures From(BLOCK_HASH_SPEC, SystemStep(keccak, Execute(keccak, start, moves[..n]), moves[n]).blockHashes,
                 (tag, k, resp) => HashGave(keccak, start, moves, tag, k, resp))
  {
    SpecsAreLawful();
    var s := Execute(keccak, start, moves[..n]);
    var fits := (tag, k, resp) => HashGave(keccak, start, moves, tag, k, resp);
    BlockHashesAdvance(keccak, s, moves[n]);
    if moves[n].BlockHashMove? && Own(moves[n].blockHashAction) {
      var a := moves[n].blockHashAction;
      forall tag, k, resp | Gives(BLOCK_HASH_SPEC, s.blockHashes, a, tag, k, resp)
        ensures fits(tag, k, resp)
      {
        assert HashGaveAt(keccak, start, moves, n, tag, k, resp);
      }
      FromStep(BLOCK_HASH_SPEC, s.blockHashes, a, fits);
    } else {
      FromApart(BLOCK_HASH_SPEC, s.blockHashes, SystemStep(keccak, s, moves[n]).blockHashes, fits);
    }
  }

  lemma {:induction false} ExecuteSourced(keccak: Bytecode -> B256, start: System, moves: seq<Move>, n: nat)
    requires n <= |moves| && Sourced(keccak, start, moves, start)
    ensures Sourced(keccak, start, moves, Execute(keccak, start, moves[..n]))
    decreases n
  {
    if n == 0 {
    } else {
      ExecuteSourced(keccak, start, moves, n - 1);
      AccountsSourced(keccak, start, moves, n - 1);
      SlotsSourced(keccak, start, moves, n - 1);
      HashesSourced(keccak, start, moves, n - 1);
      assert moves[..n][..n - 1] == moves[..n - 1];
    }
  }

  /** What a merge adds or changes stands in `fits` for the tag merged at. */
  ghost predicate Contributed<Key, Val, Resp>(
    held: map<Key, Val>, merged: map<Key, Val>, hash: B256, hit: Val -> Resp,
    fits: (Option<B256>, Key, Resp) -> bool)
  {
    forall k :: k in merged && (k !in held || merged[k] != held[k]) ==> fits(Some(hash), k, hit(merged[k]))
  }

  lemma MergeContributes<Req, Key, Val, Resp, Ctx, Side>(
    spec: FetchSpec<Req, Key, Val, Resp, Ctx, Side>, s: State<Req, Key, Val, Resp, Ctx, Side>,
    fits: (Option<B256>, Key, Resp) -> bool, hash: B256, held: map<Key, Val>, merged: map<Key, Val>)
    requires spec.guarded && From(spec, s, fits) && s.flushReply.Some?
    requires merged == if s.flushReply.value.IsValidFor(hash) then held + s.flushReply.value.data else held
    ensures Contributed(held, merged, hash, spec.hit, fits)
  {
    assert CacheFits(spec, fits, s.flushReply.value.blockHash, s.flushReply.value.data);
  }

  /** What the writer is about to publish: only accounts and slots it held or merges, and no account, slot or
      block hash merged that was not answered to a request tagged with the block it builds on. */
  ghost predicate OnlyFromTheTip(keccak: Bytecode -> B256, start: System, moves: seq<Move>, s: System)
    requires s.writer.Flushing? && AllFlushed(s)
  {
    var base, merged := s.writer.base, Merged(s.writer.base, FlushedCaches(s));
    var next := NextSnapshot(base, s.writer.n, FlushedCaches(s));
    && next.accounts.Keys <= merged.accounts.Keys
    && next.storage.Keys <= merged.storage.Keys
    && Contributed(base.accounts, merged.accounts, base.blockHash, ACCOUNT_SPEC.hit,
                   (tag, k, resp) => AccountGave(keccak, start, moves, tag, k, resp))
    && Contributed(base.storage, merged.storage, base.blockHash, STORAGE_SPEC.hit,
                   (tag, k, resp) => SlotGave(keccak, start, moves, tag, k, resp))
    && Contributed(base.blockHashes, merged.blockHashes, base.blockHash, BLOCK_HASH_SPEC.hit,
                   (tag, k, resp) => HashGave(keccak, start, moves, tag, k, resp))
  }

  lemma SourcedContributes(keccak: Bytecode -> B256, start: System, moves: seq<Move>, s: System)
    requires Sourced(keccak, start, moves, s) && s.writer.Flushing? && AllFlushed(s)
    ensures OnlyFromTheTip(keccak, start, moves, s)
  {
    var base, merged := s.writer.base, Merged(s.writer.base, FlushedCaches(s));
    NextHoldsNoMore(base, s.writer.n, FlushedCaches(s));
    MergeContributes(ACCOUNT_SPEC, s.accounts, (tag, k, resp) => AccountGave(keccak, start, moves, tag, k, resp),
                     base.blockHash, base.accounts, merged.accounts);
    MergeContributes(STORAGE_SPEC, s.storage, (tag, k, resp) => SlotGave(keccak, start, moves, tag, k, resp),
                     base.blockHash, base.storage, merged.storage);
    MergeContributes(BLOCK_HASH_SPEC, s.blockHashes, (tag, k, resp) => HashGave(keccak, start, moves, tag, k, resp),
                     base.blockHash, base.blockHashes, merged.blockHashes);
  }

  /** However late a fetch ends, its answer joins a snapshot only if it was asked at the very block the
      writer is building on: a request made against a superseded tip contributes nothing, unless that tip
      is the tip again. */
  lemma {:induction false} OnlyTipRequestsContribute(keccak: Bytecode -> B256, a: nat, c: nat, g: nat, b: nat,
                                                     moves: seq<Move>)
    requires var s := Execute(keccak, Start(a, c, g, b), moves); s.writer.Flushing? && AllFlushed(s)
    ensures OnlyFromTheTip(keccak, Start(a, c, g, b), moves, Execute(keccak, Start(a, c, g, b), moves))
  {
    ExecuteSourced(keccak, Start(a, c, g, b), moves, |moves|);
    assert moves[..|moves|] == moves;
    SourcedContributes(keccak, Start(a, c, g, b), moves, Execute(keccak, Start(a, c, g, b), moves));
  }

  /** A notification never adds a key of its own: what the next snapshot holds was held or flushed. */
  lemma {:induction false} NextHoldsNoMore(base: Snapshot, n: Notification, caches: Caches)
    ensures var next := NextSnapshot(base, n, caches);
            && next.accounts.Keys <= Merged(base, caches).accounts.Keys
            && next.storage.Keys <= Merged(base, caches).storage.Keys
  {
    match n
    case ChainCommitted(c) =>
      if Accepted(base, n) {
        CommitHoldsNoMore(base, caches, ChangesOf(c), c.blocks, TipOf(c));
      } else {
        MergedHoldsMore(base, caches);
      }
    case ChainReorged(o, w) =>
      if Accepted(base, n) {
        ReorgHoldsNothing(base, Below(o), ChangesOf(w), w.blocks, TipOf(w));
      } else {
        MergedHoldsMore(base, caches);
      }
    case ChainReverted(c) =>
  }

  lemma CommitHoldsNoMore(base: Snapshot, caches: Caches, changes: ExecutionChanges, blocks: seq<Block>, tip: ChainTip)
    ensures var next := CommitState(base, caches, changes, blocks, tip);
            && next.accounts.Keys == Merged(base, caches).accounts.Keys
            && next.storage.Keys == Merged(base, caches).storage.Keys
  {
    CommitParts(base, caches, changes, blocks, tip);
    var merged := Merged(base, caches);
    assert ApplyExecution(merged, changes).accounts.Keys == merged.accounts.Keys;
    assert ApplyExecution(merged, changes).storage.Keys == merged.storage.Keys;
  }

  lemma MergedHoldsMore(base: Snapshot, caches: Caches)
    ensures base.accounts.Keys <= Merged(base, caches).accounts.Keys
    ensures base.storage.Keys <= Merged(base, caches).storage.Keys
  {
  }

  lemma ReorgHoldsNothing(current: Snapshot, cutoff: nat, changes: ExecutionChanges, blocks: seq<Block>, tip: ChainTip)
    ensures var next := ReorgState(current, cutoff, changes, blocks, tip);
            next.accounts == map[] && next.storage == map[]
  {
  }
}
