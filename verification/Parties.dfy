/** The composed system seen from one manager: every move of the system is one step of that manager, a
    registration taken off its channel, or nothing. */
module Parties {
  import opened Types
  import opened Snapshots
  import opened ManagerCore
  import opened ManagerProofs
  import opened Managers
  import opened Systems

  /** Anything but an answer from the RPC: a move that is not the manager's own, or a registration taken off
      its channel. */
  ghost predicate Apart<Req(!new), Key, Val, Resp(!new), Ctx, Side(!new)>(
    spec: FetchSpec<Req, Key, Val, Resp, Ctx, Side>, s: State<Req, Key, Val, Resp, Ctx, Side>,
    s': State<Req, Key, Val, Resp, Ctx, Side>)
  {
    s' == s.(ctx := s'.ctx) || exists a: Action<Req, Resp, Side> :: !a.FinishFetch? && s' == Step(spec, s, a)
  }

  ghost predicate Advances<Req(!new), Key, Val, Resp(!new), Ctx, Side(!new)>(
    spec: FetchSpec<Req, Key, Val, Resp, Ctx, Side>, s: State<Req, Key, Val, Resp, Ctx, Side>,
    s': State<Req, Key, Val, Resp, Ctx, Side>)
  {
    s' == s.(ctx := s'.ctx) || exists a :: s' == Step(spec, s, a)
  }

  lemma AccountsAdvance(keccak: Bytecode -> B256, s: System, m: Move)
    ensures m.AccountMove? && Own(m.accountAction) ==>
              SystemStep(keccak, s, m).accounts == Step(ACCOUNT_SPEC, s.accounts, m.accountAction)
    ensures !(m.AccountMove? && Own(m.accountAction)) ==>
              Apart(ACCOUNT_SPEC, s.accounts, SystemStep(keccak, s, m).accounts)
    ensures Advances(ACCOUNT_SPEC, s.accounts, SystemStep(keccak, s, m).accounts)
  {
    var s' := SystemStep(keccak, s, m);
    match m
    case Submit(i) =>
      if i < |s.loads| && s.loads[i].read.AccountRead? {
        var step := BasicRef(s.loads[i].snapshot, s.loads[i].read.address);
        assert step.Ask? ==> s'.accounts == Step(ACCOUNT_SPEC, s.accounts, Receive(Message(i, step.request)));
      }
    case AccountMove(a) => assert Own(a) ==> s'.accounts == Step(ACCOUNT_SPEC, s.accounts, a);
    case Notify(_) => assert s.writer.Waiting? ==> s'.accounts == Step(ACCOUNT_SPEC, s.accounts, RequestFlush);
    case _ =>
  }

  lemma StorageAdvances(keccak: Bytecode -> B256, s: System, m: Move)
    ensures m.StorageMove? && Own(m.storageAction) ==>
              SystemStep(keccak, s, m).storage == Step(STORAGE_SPEC, s.storage, m.storageAction)
    ensures !(m.StorageMove? && Own(m.storageAction)) ==>
              Apart(STORAGE_SPEC, s.storage, SystemStep(keccak, s, m).storage)
    ensures Advances(STORAGE_SPEC, s.storage, SystemStep(keccak, s, m).storage)
  {
    var s' := SystemStep(keccak, s, m);
    match m
    case Submit(i) =>
      if i < |s.loads| && s.loads[i].read.StorageRead? {
        var step := StorageRef(s.loads[i].snapshot, s.loads[i].read.account, s.loads[i].read.index);
        assert step.Ask? ==> s'.storage == Step(STORAGE_SPEC, s.storage, Receive(Message(i, step.request)));
      }
    case StorageMove(a) => assert Own(a) ==> s'.storage == Step(STORAGE_SPEC, s.storage, a);
    case Notify(_) => assert s.writer.Waiting? ==> s'.storage == Step(STORAGE_SPEC, s.storage, RequestFlush);
    case _ =>
  }

  lemma BlockHashesAdvance(keccak: Bytecode -> B256, s: System, m: Move)
    ensures m.BlockHashMove? && Own(m.blockHashAction) ==>
              SystemStep(keccak, s, m).blockHashes == Step(BLOCK_HASH_SPEC, s.blockHashes, m.blockHashAction)
    ensures !(m.BlockHashMove? && Own(m.blockHashAction)) ==>
              Apart(BLOCK_HASH_SPEC, s.blockHashes, SystemStep(keccak, s, m).blockHashes)
    ensures Advances(BLOCK_HASH_SPEC, s.blockHashes, SystemStep(keccak, s, m).blockHashes)
  {
    var s' := SystemStep(keccak, s, m);
    match m
    case Submit(i) =>
      if i < |s.loads| && s.loads[i].read.BlockHashRead? {
        var step := BlockHashRef(s.loads[i].snapshot, s.loads[i].read.number);
        assert step.Ask? ==> s'.blockHashes == Step(BLOCK_HASH_SPEC, s.blockHashes, Receive(Message(i, step.request)));
      }
    case BlockHashMove(a) => assert Own(a) ==> s'.blockHashes == Step(BLOCK_HASH_SPEC, s.blockHashes, a);
    case Notify(_) =>
      assert s.writer.Waiting? ==> s'.blockHashes == Step(BLOCK_HASH_SPEC, s.blockHashes, RequestFlush);
    case _ =>
  }

  lemma CodeAdvances(keccak: Bytecode -> B256, s: System, m: Move)
    ensures Advances(CODE_SPEC, s.code, SystemStep(keccak, s, m).code)
    ensures SystemStep(keccak, s, m).code == s.code
            || exists a: CodeAction :: SystemStep(keccak, s, m).code == Step(CODE_SPEC, s.code, a)
  {
    var s' := SystemStep(keccak, s, m);
    match m
    case Submit(i) =>
      if i < |s.loads| && s.loads[i].read.CodeRead? {
        var step := CodeByHashRef(s.loads[i].snapshot, s.loads[i].read.codeHash);
        assert step.Ask? ==> s'.code == Step(CODE_SPEC, s.code, Receive(Message(i, step.request)));
      }
    case CodeMove(a) => assert Own(a) && !a.FinishFetch? ==> s'.code == Step(CODE_SPEC, s.code, a);
    case CodeAnswer(i, rpc) =>
      if i < |s.code.running| {
        var t := s.code.running[i];
        var result := GetCodeByHash(keccak, t.waiter.request, t.ctx, rpc);
        assert s'.code == Step(CODE_SPEC, s.code, FinishFetch(i, result));
      }
    case ForwardRegistration =>
      if s.accounts.ctx != [] {
        assert s'.code == Step(CODE_SPEC, s.code, SideSend(s.accounts.ctx[0]));
      }
    case Notify(_) => assert s.writer.Waiting? ==> s'.code == Step(CODE_SPEC, s.code, RequestFlush);
    case _ =>
  }

  // ---------------------------------------------------------------------------------------------
  // Accounting in the composed system

  ghost predicate Exact<Req, Key, Val, Resp, Ctx, Side>(s: State<Req, Key, Val, Resp, Ctx, Side>) {
    Accounted(s) && ExactlyOnce(s) && 1 <= s.limit <= 1024
  }

  lemma ExactAdvance<Req(!new), Key, Val, Resp(!new), Ctx, Side(!new)>(
    spec: FetchSpec<Req, Key, Val, Resp, Ctx, Side>, s: State<Req, Key, Val, Resp, Ctx, Side>,
    s': State<Req, Key, Val, Resp, Ctx, Side>)
    requires Exact(s) && Advances(spec, s, s')
    ensures Exact(s') && s'.limit == s.limit
  {
    if s' == s.(ctx := s'.ctx) {
      assert forall id: nat :: Outstanding(s', id) + Answered(s', id) == Outstanding(s, id) + Answered(s, id);
    } else {
      var a :| s' == Step(spec, s, a);
      AccountingStep(spec, s, a);
      ExactlyOnceStep(spec, s, a);
    }
  }

  lemma ExactInit<Req, Key, Val, Resp, Ctx, Side>(
    spec: FetchSpec<Req, Key, Val, Resp, Ctx, Side>, ctx: Ctx, limit: nat)
    ensures Exact<Req, Key, Val, Resp, Ctx, Side>(Init(ctx, ClampConcurrency(limit)))
  {
    ExecAccounted(spec, ctx, ClampConcurrency(limit), []);
  }

  ghost predicate AllExact(s: System) {
    Exact(s.accounts) && Exact(s.code) && Exact(s.storage) && Exact(s.blockHashes)
  }

  /** Each manager has the limit that was configured for its own kind of fetch. */
  ghost predicate Limits(s: System, a: nat, c: nat, g: nat, b: nat) {
    && s.accounts.limit == ClampConcurrency(a) && s.code.limit == ClampConcurrency(c)
    && s.storage.limit == ClampConcurrency(g) && s.blockHashes.limit == ClampConcurrency(b)
  }

  lemma ExactMove(keccak: Bytecode -> B256, s: System, m: Move)
    requires AllExact(s)
    ensures var s' := SystemStep(keccak, s, m);
            && AllExact(s')
            && s'.accounts.limit == s.accounts.limit && s'.code.limit == s.code.limit
            && s'.storage.limit == s.storage.limit && s'.blockHashes.limit == s.blockHashes.limit
  {
    var s' := SystemStep(keccak, s, m);
    AccountsAdvance(keccak, s, m);
    ExactAdvance(ACCOUNT_SPEC, s.accounts, s'.accounts);
    CodeAdvances(keccak, s, m);
    ExactAdvance(CODE_SPEC, s.code, s'.code);
    StorageAdvances(keccak, s, m);
    ExactAdvance(STORAGE_SPEC, s.storage, s'.storage);
    BlockHashesAdvance(keccak, s, m);
    ExactAdvance(BLOCK_HASH_SPEC, s.blockHashes, s'.blockHashes);
  }

  /** In every reachable state of the system each manager accounts exactly for its permits, its fetches in
      flight and its replies, under its own configured limit, clamped to between 1 and 1024. */
  lemma {:induction false} ExecuteExact(keccak: Bytecode -> B256, a: nat, c: nat, g: nat, b: nat, moves: seq<Move>)
    ensures AllExact(Execute(keccak, Start(a, c, g, b), moves))
    ensures Limits(Execute(keccak, Start(a, c, g, b), moves), a, c, g, b)
    decreases |moves|
  {
    if moves == [] {
      ExactInit(ACCOUNT_SPEC, [], a);
      ExactInit(CODE_SPEC, map[], c);
      ExactInit(STORAGE_SPEC, (), g);
      ExactInit(BLOCK_HASH_SPEC, (), b);
    } else {
      var front := moves[..|moves| - 1];
      ExecuteExact(keccak, a, c, g, b, front);
      ExactMove(keccak, Execute(keccak, Start(a, c, g, b), front), moves[|moves| - 1]);
    }
  }
}
