/** Code hints over whole runs: no registration is lost, repeated or reordered on its way from the account
    manager to the code manager. */
module Hints {
  import opened Types
  import opened ManagerCore
  import opened ManagerProofs
  import opened FlushProofs
  import opened Callers
  import opened Managers
  import opened Systems
  import opened Parties

  type AccountReply = Reply<AccountRequest, Option<AccountInfo>>

  /** The registrations that the resolved accounts among some replies call for, in the order answered. */
  function Registrations(q: seq<AccountReply>): AccountCtx
    decreases |q|
  {
    if q == [] then [] else Registrations(q[..|q| - 1]) + RegistrationOf(q[|q| - 1])
  }

  function RegistrationOf(r: AccountReply): AccountCtx {
    if r.via.Fetched? && r.result.Ok? && r.result.value.Some?
    then [CodeRegistration(r.result.value.value.codeHash, r.waiter.request.address)]
    else []
  }

  lemma RegistrationsPush(q: seq<AccountReply>, r: AccountReply)
    ensures Registrations(q + [r]) == Registrations(q) + RegistrationOf(r)
  {
    assert (q + [r])[..|q|] == q;
  }

  lemma CompletionRegisters(s: AccountState, d: Done<AccountRequest, Address, Option<AccountInfo>>)
    returns (sent: AccountCtx)
    requires d.key == d.waiter.request.address
    ensures ApplyCompletion(ACCOUNT_SPEC, s, d).ctx == s.ctx + sent
    ensures Registrations(ApplyCompletion(ACCOUNT_SPEC, s, d).replies) == Registrations(s.replies) + sent
  {
    var r := Reply(d.waiter, d.result, Fetched(d.epoch));
    RegistrationsPush(s.replies, r);
    sent := RegistrationOf(r);
  }

  lemma ServingRegisters(s: AccountState, msg: Message<AccountRequest>)
    ensures ServeMessage(ACCOUNT_SPEC, s, msg).ctx == s.ctx
    ensures Registrations(ServeMessage(ACCOUNT_SPEC, s, msg).replies) == Registrations(s.replies)
  {
    var r := Retag(ACCOUNT_SPEC, s, msg.request);
    var key := ACCOUNT_SPEC.key(msg.request);
    if key in r.cache {
      RegistrationsPush(s.replies, Reply(msg, Ok(ACCOUNT_SPEC.hit(r.cache[key])), Cached));
    }
  }

  lemma OthersRegisterNothing(s: AccountState, a: AccountAction)
    requires !a.Complete? && !a.Serve?
    ensures Step(ACCOUNT_SPEC, s, a).ctx == s.ctx && Step(ACCOUNT_SPEC, s, a).replies == s.replies
  {
    NoSideUse(s.ctx, s.sideRx);
  }

  /** A step of the account manager sends exactly the registrations its new replies call for, whatever epoch
      the answer is of. */
  lemma AccountStepRegisters(s: AccountState, a: AccountAction) returns (sent: AccountCtx)
    requires Provenance(ACCOUNT_SPEC, s, Anything, AnyAnswer)
    ensures Step(ACCOUNT_SPEC, s, a).ctx == s.ctx + sent
    ensures Registrations(Step(ACCOUNT_SPEC, s, a).replies) == Registrations(s.replies) + sent
  {
    sent := [];
    if a.Complete? {
      if (s.phase.Idle? || (s.phase.Draining? && s.inflight > 0)) && s.completionRx != [] {
        var d := s.completionRx[0];
        assert FetchOk(ACCOUNT_SPEC, s, Anything, d.waiter, d.key, d.epoch);
        sent := CompletionRegisters(s.(completionRx := s.completionRx[1..]), d);
      }
    } else if a.Serve? {
      if s.phase.Serving? {
        ServingRegisters(s, s.phase.msg);
      }
    } else {
      OthersRegisterNothing(s, a);
    }
  }

  /** Nothing is ever sent to the account manager's own side channel that would change its context. */
  lemma {:induction false} NoSideUse(ctx: AccountCtx, q: seq<()>)
    ensures FoldSide(ACCOUNT_SPEC, ctx, q) == ctx
    decreases |q|
  {
    if q == [] {
    } else {
      NoSideUse(ctx, q[1..]);
    }
  }

  /** In every interleaving the account manager has sent one registration for each account it resolved, in the
      order it answered them: flushes, tags and late completions make no difference. */
  lemma {:induction false} EveryAccountIsRegistered(limit: nat, script: seq<AccountAction>)
    ensures var s := Exec(ACCOUNT_SPEC, Init([], limit), script);
            s.ctx == Registrations(s.replies) && Provenance(ACCOUNT_SPEC, s, Anything, AnyAnswer)
    decreases |script|
  {
    if script == [] {
    } else {
      var front, a := script[..|script| - 1], script[|script| - 1];
      EveryAccountIsRegistered(limit, front);
      var s: AccountState := Exec(ACCOUNT_SPEC, Init([], limit), front);
      var sent := AccountStepRegisters(s, a);
      SpecsAreLawful();
      assert Honest(ACCOUNT_SPEC, s, a, Anything, AnyAnswer);
      ProvenanceStep(ACCOUNT_SPEC, s, a, Anything, AnyAnswer);
    }
  }

  // ---------------------------------------------------------------------------------------------
  // Across the channel

  lemma {:induction false} FoldAppend(hints: CodeHints, p: seq<CodeRegistration>, q: seq<CodeRegistration>)
    ensures FoldSide(CODE_SPEC, hints, p + q) == FoldSide(CODE_SPEC, FoldSide(CODE_SPEC, hints, p), q)
    decreases |p|
  {
    if p == [] {
      assert p + q == q;
    } else {
      assert (p + q)[0] == p[0] && (p + q)[1..] == p[1..] + q;
      FoldAppend(CODE_SPEC.onSide(hints, p[0]), p[1..], q);
    }
  }

  /** The hints the code manager will hold once everything sent has arrived. */
  function HintsToBe(s: System): CodeHints {
    FoldSide(CODE_SPEC, s.code.ctx, s.code.sideRx + s.accounts.ctx)
  }

  lemma CodeStepFolds(s: CodeState, a: CodeAction)
    requires !a.SideSend?
    ensures var s' := Step(CODE_SPEC, s, a);
            || (s'.ctx == s.ctx && s'.sideRx == s.sideRx)
            || (s'.ctx == FoldSide(CODE_SPEC, s.ctx, s.sideRx) && s'.sideRx == [])
  {
  }

  lemma CodeStepKeepsHints(s: CodeState, a: CodeAction, tail: seq<CodeRegistration>)
    requires !a.SideSend?
    ensures var s' := Step(CODE_SPEC, s, a);
            FoldSide(CODE_SPEC, s'.ctx, s'.sideRx + tail) == FoldSide(CODE_SPEC, s.ctx, s.sideRx + tail)
  {
    CodeStepFolds(s, a);
    FoldAppend(s.ctx, s.sideRx, tail);
    assert [] + tail == tail;
  }

  /** All that was registered is known, queued or on its way. */
  ghost predicate HintsComplete(s: System) {
    HintsToBe(s) == FoldSide(CODE_SPEC, map[], Registrations(s.accounts.replies))
  }

  lemma {:induction false} HintsPush(hints: CodeHints, side: seq<CodeRegistration>, way: AccountCtx,
                                     all: AccountCtx, sent: AccountCtx)
    requires FoldSide(CODE_SPEC, hints, side + way) == FoldSide(CODE_SPEC, map[], all)
    ensures FoldSide(CODE_SPEC, hints, side + (way + sent)) == FoldSide(CODE_SPEC, map[], all + sent)
  {
    FoldAppend(hints, side + way, sent);
    FoldAppend(map[], all, sent);
    assert side + (way + sent) == (side + way) + sent;
  }

  lemma {:induction false} AccountMoveKeepsHints(s: System, a: AccountAction)
    requires HintsComplete(s) && Provenance(ACCOUNT_SPEC, s.accounts, Anything, AnyAnswer)
    ensures HintsComplete(s.(accounts := Step(ACCOUNT_SPEC, s.accounts, a)))
  {
    var sent := AccountStepRegisters(s.accounts, a);
    HintsPush(s.code.ctx, s.code.sideRx, s.accounts.ctx, Registrations(s.accounts.replies), sent);
  }

  lemma CodeMoveKeepsHints(s: System, a: CodeAction)
    requires HintsComplete(s) && !a.SideSend?
    ensures HintsComplete(s.(code := Step(CODE_SPEC, s.code, a)))
  {
    CodeStepKeepsHints(s.code, a, s.accounts.ctx);
  }

  lemma ForwardKeepsHints(keccak: Bytecode -> B256, s: System)
    requires HintsComplete(s)
    ensures HintsComplete(SystemStep(keccak, s, ForwardRegistration))
  {
    if s.accounts.ctx != [] {
      var h, rest := s.accounts.ctx[0], s.accounts.ctx[1..];
      assert (s.code.sideRx + [h]) + rest == s.code.sideRx + s.accounts.ctx;
    }
  }

  lemma SubmitKeepsHints(s: System, i: nat)
    requires i < |s.loads|
    ensures var s' := SubmitRead(s, i);
            && s'.code.ctx == s.code.ctx && s'.code.sideRx == s.code.sideRx
            && s'.accounts.ctx == s.accounts.ctx && s'.accounts.replies == s.accounts.replies
  {
  }

  lemma {:induction false} MoveKeepsHints(keccak: Bytecode -> B256, s: System, m: Move)
    requires HintsComplete(s) && Provenance(ACCOUNT_SPEC, s.accounts, Anything, AnyAnswer)
    ensures HintsComplete(SystemStep(keccak, s, m))
  {
    match m
    case Submit(i) => if i < |s.loads| { SubmitKeepsHints(s, i); }
    case AccountMove(a) => if Own(a) { AccountMoveKeepsHints(s, a); }
    case CodeMove(a) => if Own(a) && !a.FinishFetch? { CodeMoveKeepsHints(s, a); }
    case CodeAnswer(i, rpc) =>
      if i < |s.code.running| {
        var t := s.code.running[i];
        CodeMoveKeepsHints(s, FinishFetch(i, GetCodeByHash(keccak, t.waiter.request, t.ctx, rpc)));
      }
    case ForwardRegistration => ForwardKeepsHints(keccak, s);
    case _ => OthersKeepHints(keccak, s, m);
  }

  lemma OthersKeepHints(keccak: Bytecode -> B256, s: System, m: Move)
    requires m.LoadFor? || m.StorageMove? || m.BlockHashMove? || m.Notify? || m.Publish? || m.Bump?
    ensures var s' := SystemStep(keccak, s, m);
            && s'.code.ctx == s.code.ctx && s'.code.sideRx == s.code.sideRx
            && s'.accounts.ctx == s.accounts.ctx && s'.accounts.replies == s.accounts.replies
  {
  }

  /** In every reachable state the code manager's hints, once what is queued and on its way has arrived, are
      those of every account ever resolved, the one resolved last winning for each code hash. */
  lemma {:induction false} HintsFollowAccounts(keccak: Bytecode -> B256, a: nat, c: nat, g: nat, b: nat,
                                               moves: seq<Move>)
    ensures var s := Execute(keccak, Start(a, c, g, b), moves);
            HintsComplete(s) && Provenance(ACCOUNT_SPEC, s.accounts, Anything, AnyAnswer)
    decreases |moves|
  {
    if moves == [] {
    } else {
      var front, m := moves[..|moves| - 1], moves[|moves| - 1];
      HintsFollowAccounts(keccak, a, c, g, b, front);
      var s := Execute(keccak, Start(a, c, g, b), front);
      MoveKeepsHints(keccak, s, m);
      AccountsAdvance(keccak, s, m);
      AdvanceKeepsProvenance(s.accounts, SystemStep(keccak, s, m).accounts);
    }
  }

  lemma AdvanceKeepsProvenance(s: AccountState, s': AccountState)
    requires Provenance(ACCOUNT_SPEC, s, Anything, AnyAnswer) && Advances(ACCOUNT_SPEC, s, s')
    ensures Provenance(ACCOUNT_SPEC, s', Anything, AnyAnswer)
  {
    if s' != s.(ctx := s'.ctx) {
      var a :| s' == Step(ACCOUNT_SPEC, s, a);
      SpecsAreLawful();
      assert Honest(ACCOUNT_SPEC, s, a, Anything, AnyAnswer);
      ProvenanceStep(ACCOUNT_SPEC, s, a, Anything, AnyAnswer);
    }
  }

  // ---------------------------------------------------------------------------------------------
  // From fetch to registration

  lemma {:induction false} ReplyIsRegistered(q: seq<AccountReply>, r: AccountReply)
    requires r in q
    ensures forall g :: g in RegistrationOf(r) ==> g in Registrations(q)
    decreases |q|
  {
    var front, last := q[..|q| - 1], q[|q| - 1];
    if r != last {
      assert r in front;
      ReplyIsRegistered(front, r);
    }
  }

  /** When the caller of an account fetch has been answered, a fetch that found the account has its code hash
      registered: even a fetch abandoned by a flush or overtaken by another tag. */
  lemma {:induction false} FoundAccountIsRegistered(limit: nat, script: seq<AccountAction>, n: nat, i: nat,
                                                    info: AccountInfo)
    requires n < |script| && script[n] == FinishFetch(i, Ok(Some(info)))
    requires i < |Exec(ACCOUNT_SPEC, Init([], limit), script[..n]).running|
    ensures var w := Exec(ACCOUNT_SPEC, Init([], limit), script[..n]).running[i].waiter;
            var s: AccountState := Exec(ACCOUNT_SPEC, Init([], limit), script);
            Answered(s, w.id) == 1 ==> CodeRegistration(info.codeHash, w.request.address) in s.ctx
  {
    var t := Exec(ACCOUNT_SPEC, Init([], limit), script[..n]).running[i];
    var s: AccountState := Exec(ACCOUNT_SPEC, Init([], limit), script);
    ResultReachesItsCaller(ACCOUNT_SPEC, [], limit, script, n, i, Ok(Some(info)));
    EveryAccountIsRegistered(limit, script);
    if Answered(s, t.waiter.id) == 1 {
      ReplyIsRegistered(s.replies, Reply(t.waiter, Ok(Some(info)), Fetched(t.epoch)));
    }
  }

  // ---------------------------------------------------------------------------------------------
  // From registration to fetch

  lemma {:induction false} FoldGrows(hints: CodeHints, q: seq<CodeRegistration>)
    ensures hints.Keys <= FoldSide(CODE_SPEC, hints, q).Keys
    decreases |q|
  {
    if q == [] {
    } else {
      FoldGrows(CODE_SPEC.onSide(hints, q[0]), q[1..]);
    }
  }

  /** Back at its select the code manager learns everything queued on its side channel, whether it goes on with
      a registration or with a request: the last one for a hash counts, and what it knew otherwise stays. */
  lemma QueuedHintsAreLearnt(s: CodeState, a: CodeAction, i: nat)
    requires s.phase.Idle? && (a.TakeSide? || (a.TakeRequest? && s.fetchRx != []))
    requires i < |s.sideRx| && forall j :: i < j < |s.sideRx| ==> s.sideRx[j].codeHash != s.sideRx[i].codeHash
    ensures var s' := Step(CODE_SPEC, s, a);
            && s'.sideRx == []
            && s.sideRx[i].codeHash in s'.ctx && s'.ctx[s.sideRx[i].codeHash] == s.sideRx[i].address
            && s.ctx.Keys <= s'.ctx.Keys
  {
    LastRegistrationWins(s.ctx, s.sideRx, i);
    FoldGrows(s.ctx, s.sideRx);
  }

  lemma CodeStepGrows(s: CodeState, a: CodeAction)
    ensures s.ctx.Keys <= Step(CODE_SPEC, s, a).ctx.Keys
  {
    FoldGrows(s.ctx, s.sideRx);
  }

  /** What is known of a fetch of the code manager holds on whatever the system does. */
  lemma {:induction false} CodeMoveKeeps(keccak: Bytecode -> B256, s: System, m: Move)
    ensures var s' := SystemStep(keccak, s, m);
            && s.code.ctx.Keys <= s'.code.ctx.Keys
            && (forall w, e, c :: Spawned(s.code, w, e, c) ==> Spawned(s'.code, w, e, c))
            && (forall w, e, r :: Finished(s.code, w, e, r) ==> Finished(s'.code, w, e, r))
  {
    CodeAdvances(keccak, s, m);
    var s' := SystemStep(keccak, s, m);
    if s'.code != s.code {
      var a: CodeAction :| s'.code == Step(CODE_SPEC, s.code, a);
      CodeStepGrows(s.code, a);
      forall w, e, c | Spawned(s.code, w, e, c)
        ensures Spawned(s'.code, w, e, c)
      {
        SpawnedStep(CODE_SPEC, s.code, a, w, e, c);
      }
      forall w, e, r | Finished(s.code, w, e, r)
        ensures Finished(s'.code, w, e, r)
      {
        FinishedStep(CODE_SPEC, s.code, a, w, e, r);
      }
    }
  }

  lemma {:induction false} CodeRunKeeps(keccak: Bytecode -> B256, start: System, moves: seq<Move>, j: nat, n: nat)
    requires j <= n <= |moves|
    ensures var s, s' := Execute(keccak, start, moves[..j]), Execute(keccak, start, moves[..n]);
            && s.code.ctx.Keys <= s'.code.ctx.Keys
            && (forall w, e, c :: Spawned(s.code, w, e, c) ==> Spawned(s'.code, w, e, c))
            && (forall w, e, r :: Finished(s.code, w, e, r) ==> Finished(s'.code, w, e, r))
    decreases n
  {
    if j == n {
    } else {
      CodeRunKeeps(keccak, start, moves, j, n - 1);
      assert moves[..n][..n - 1] == moves[..n - 1];
      CodeMoveKeeps(keccak, Execute(keccak, start, moves[..n - 1]), moves[n - 1]);
    }
  }

  /** A fetch that runs with a hint for its hash asks at the hinted address, and the right code found there is
      what its caller gets. */
  lemma HintedAnswer(keccak: Bytecode -> B256, s: System, i: nat, rpc: (Address, nat) -> Result<Bytecode>,
                     code: Bytecode)
    requires i < |s.code.running| && ExactlyOnce(s.code)
    requires var t := s.code.running[i];
             && t.waiter.request.addressHint.None? && t.waiter.request.codeHash in t.ctx
             && rpc(t.ctx[t.waiter.request.codeHash], t.waiter.request.block) == Ok(code)
             && keccak(code) == t.waiter.request.codeHash
    ensures var t := s.code.running[i];
            Finished(SystemStep(keccak, s, CodeAnswer(i, rpc)).code, t.waiter, t.epoch, Ok(code))
  {
    var t := s.code.running[i];
    var address := t.ctx[t.waiter.request.codeHash];
    assert rpc(address, t.waiter.request.block) == Ok(code);
    assert GetCodeByHash(keccak, t.waiter.request, t.ctx, rpc) == Ok(code);
    FinishFinishes(CODE_SPEC, s.code, i, Ok(code));
  }

  /** At move `n` the code manager spawns the fetch for `msg`, which carries no hint of its own. */
  ghost predicate SpawnsAt(keccak: Bytecode -> B256, start: System, moves: seq<Move>, n: nat,
                            msg: Message<CodeRequest>)
  {
    && n < |moves| && moves[n] == CodeMove(Spawn)
    && var at := Execute(keccak, start, moves[..n]).code;
       at.phase == Acquiring(msg) && at.permits > 0 && msg.request.addressHint.None?
  }

  lemma {:induction false} SpawnedUntil(keccak: Bytecode -> B256, a: nat, c: nat, g: nat, b: nat,
                                        moves: seq<Move>, n: nat, m: nat, msg: Message<CodeRequest>)
    requires n < m <= |moves| && SpawnsAt(keccak, Start(a, c, g, b), moves, n, msg)
    ensures var at := Execute(keccak, Start(a, c, g, b), moves[..n]).code;
            Spawned(Execute(keccak, Start(a, c, g, b), moves[..m]).code, msg, at.epoch, at.ctx)
  {
    var start := Start(a, c, g, b);
    var at := Execute(keccak, start, moves[..n]);
    ExecuteExact(keccak, a, c, g, b, moves[..n]);
    SpawnCaptures(CODE_SPEC, at.code);
    assert moves[..n + 1][..n] == moves[..n];
    assert Execute(keccak, start, moves[..n + 1]).code == Step(CODE_SPEC, at.code, Spawn);
    CodeRunKeeps(keccak, start, moves, n + 1, m);
  }

  lemma {:induction false} AnsweredAfter(keccak: Bytecode -> B256, a: nat, c: nat, g: nat, b: nat,
                                         moves: seq<Move>, m: nat, i: nat, rpc: (Address, nat) -> Result<Bytecode>,
                                         code: Bytecode)
    requires m < |moves| && moves[m] == CodeAnswer(i, rpc)
    requires var s := Execute(keccak, Start(a, c, g, b), moves[..m]).code;
             && i < |s.running|
             && var t := s.running[i];
                && t.waiter.request.addressHint.None? && t.waiter.request.codeHash in t.ctx
                && rpc(t.ctx[t.waiter.request.codeHash], t.waiter.request.block) == Ok(code)
                && keccak(code) == t.waiter.request.codeHash
    ensures var t := Execute(keccak, Start(a, c, g, b), moves[..m]).code.running[i];
            AnsweredOrComing(Execute(keccak, Start(a, c, g, b), moves).code, t.waiter, t.epoch, Ok(code))
  {
    var start := Start(a, c, g, b);
    var s := Execute(keccak, start, moves[..m]);
    var t := s.code.running[i];
    ExecuteExact(keccak, a, c, g, b, moves[..m]);
    HintedAnswer(keccak, s, i, rpc, code);
    assert moves[..m + 1][..m] == moves[..m] && moves[..|moves|] == moves;
    CodeRunKeeps(keccak, start, moves, m + 1, |moves|);
    ExecuteExact(keccak, a, c, g, b, moves);
    FinishedIsAnswered(Execute(keccak, start, moves).code, t.waiter, t.epoch, Ok(code));
  }

  /** Hints are used. If a registration for the hash had reached the code manager's hints at some moment of the
      run, then a later fetch for it is made with that knowledge; and if the code at the address registered
      last has the hash, that is what the caller gets, once. */
  lemma {:induction false} RegisteredCodeIsFound(keccak: Bytecode -> B256, a: nat, c: nat, g: nat, b: nat,
                                                 moves: seq<Move>, j: nat, n: nat, m: nat, msg: Message<CodeRequest>,
                                                 i: nat, rpc: (Address, nat) -> Result<Bytecode>, code: Bytecode)
    requires j <= n < m < |moves| && SpawnsAt(keccak, Start(a, c, g, b), moves, n, msg)
    requires msg.request.codeHash in Execute(keccak, Start(a, c, g, b), moves[..j]).code.ctx
    requires moves[m] == CodeAnswer(i, rpc)
    requires var s := Execute(keccak, Start(a, c, g, b), moves[..m]).code;
             i < |s.running| && s.running[i].waiter.id == msg.id
    requires var hints := Execute(keccak, Start(a, c, g, b), moves[..n]).code.ctx;
             msg.request.codeHash in hints ==> rpc(hints[msg.request.codeHash], msg.request.block) == Ok(code)
    requires keccak(code) == msg.request.codeHash
    ensures var at := Execute(keccak, Start(a, c, g, b), moves[..n]).code;
            && msg.request.codeHash in at.ctx
            && AnsweredOrComing(Execute(keccak, Start(a, c, g, b), moves).code, msg, at.epoch, Ok(code))
  {
    CodeRunKeeps(keccak, Start(a, c, g, b), moves, j, n);
    SpawnedUntil(keccak, a, c, g, b, moves, n, m, msg);
    var s := Execute(keccak, Start(a, c, g, b), moves[..m]).code;
    assert s.running[i] in s.running;
    AnsweredAfter(keccak, a, c, g, b, moves, m, i, rpc, code);
  }

  /** Exactly when a fetch without a hint of its own is refused for want of one: when the hash was not among the
      hints learnt by the moment it was spawned. What was learnt later, or only queued then, does not count. */
  lemma {:induction false} RefusedIffNotLearnt(keccak: Bytecode -> B256, a: nat, c: nat, g: nat, b: nat,
                                               moves: seq<Move>, n: nat, msg: Message<CodeRequest>,
                                               i: nat, rpc: (Address, nat) -> Result<Bytecode>)
    requires n < |moves| && SpawnsAt(keccak, Start(a, c, g, b), moves, n, msg)
    requires var s := Execute(keccak, Start(a, c, g, b), moves).code;
             i < |s.running| && s.running[i].waiter.id == msg.id
    ensures var s' := SystemStep(keccak, Execute(keccak, Start(a, c, g, b), moves), CodeAnswer(i, rpc)).code;
            && s'.sending != []
            && var done := s'.sending[|s'.sending| - 1];
               && done.waiter == msg
               && (done.result == Err(MissingAddressHint(msg.request.codeHash))
                   <==> msg.request.codeHash !in Execute(keccak, Start(a, c, g, b), moves[..n]).code.ctx)
  {
    SpawnedUntil(keccak, a, c, g, b, moves, n, |moves|, msg);
    assert moves[..|moves|] == moves;
    var s := Execute(keccak, Start(a, c, g, b), moves).code;
    assert s.running[i] in s.running;
    AnswerIsSent(keccak, Execute(keccak, Start(a, c, g, b), moves), i, rpc);
  }

  lemma AnswerIsSent(keccak: Bytecode -> B256, s: System, i: nat, rpc: (Address, nat) -> Result<Bytecode>)
    requires i < |s.code.running|
    ensures var t := s.code.running[i];
            SystemStep(keccak, s, CodeAnswer(i, rpc)).code.sending
            == s.code.sending + [Done(t.waiter, t.key, t.epoch, GetCodeByHash(keccak, t.waiter.request, t.ctx, rpc))]
  {
  }

  // ---------------------------------------------------------------------------------------------
  // A registration that comes in time and is not used

  /** The manager is busy with one request when a registration and, after it, the request it is for arrive. */
  function LateDrain(first: Message<CodeRequest>, reg: CodeRegistration, second: Message<CodeRequest>): seq<CodeAction>
  {
    [Receive(first), TakeRequest, SideSend(reg), Receive(second), Serve, Spawn, Serve, Spawn]
  }

  lemma ExecTwo(s: CodeState, a: CodeAction, b: CodeAction, rest: seq<CodeAction>)
    ensures Exec(CODE_SPEC, s, [a, b] + rest) == Exec(CODE_SPEC, Step(CODE_SPEC, Step(CODE_SPEC, s, a), b), rest)
  {
    assert [a, b] + rest == [a] + ([b] + rest);
    ExecFirst(CODE_SPEC, s, a, [b] + rest);
    ExecFirst(CODE_SPEC, Step(CODE_SPEC, s, a), b, rest);
  }

  lemma LateDrainUnfolds(s0: CodeState, first: Message<CodeRequest>, reg: CodeRegistration,
                         second: Message<CodeRequest>, s2: CodeState, s4: CodeState, s6: CodeState)
    requires s2 == Step(CODE_SPEC, Step(CODE_SPEC, s0, Receive(first)), TakeRequest)
    requires s4 == Step(CODE_SPEC, Step(CODE_SPEC, s2, SideSend(reg)), Receive(second))
    requires s6 == Step(CODE_SPEC, Step(CODE_SPEC, s4, Serve), Spawn)
    ensures Exec(CODE_SPEC, s0, LateDrain(first, reg, second)) == Step(CODE_SPEC, Step(CODE_SPEC, s6, Serve), Spawn)
  {
    var script := LateDrain(first, reg, second);
    assert script == [Receive(first), TakeRequest] + script[2..];
    ExecTwo(s0, Receive(first), TakeRequest, script[2..]);
    assert script[2..] == [SideSend(reg), Receive(second)] + script[4..];
    ExecTwo(s2, SideSend(reg), Receive(second), script[4..]);
    assert script[4..] == [Serve, Spawn] + script[6..];
    ExecTwo(s4, Serve, Spawn, script[6..]);
    assert script[6..] == [Serve, Spawn] + [];
    ExecTwo(s6, Serve, Spawn, []);
  }

  /** One request goes from lookup to fetch, and the next in the queue is at hand. */
  lemma SpawnsUnhinted(s: CodeState, msg: Message<CodeRequest>)
    requires s.phase == Serving(msg) && s.cache == map[] && s.permits > 0
    ensures Step(CODE_SPEC, Step(CODE_SPEC, s, Serve), Spawn)
            == Next(s.(permits := s.permits - 1, inflight := s.inflight + 1,
                       running := s.running + [Task(msg, msg.request.codeHash, s.epoch, s.ctx)]))
  {
  }

  /** The side channel is drained when a request is received at the select, not when the next one is picked up
      straight after it. So the second request is spawned without the hint that reached the manager before it,
      and fails whatever the RPC would say. */
  lemma {:induction false} RegistrationInTimeCanBeMissed(
    limit: nat, first: Message<CodeRequest>, reg: CodeRegistration, second: Message<CodeRequest>,
    keccak: Bytecode -> B256, rpc: (Address, nat) -> Result<Bytecode>)
    requires limit >= 2 && first.id != second.id
    requires reg.codeHash == second.request.codeHash && second.request.addressHint.None?
    ensures var s: CodeState := Exec(CODE_SPEC, Init(map[], limit), LateDrain(first, reg, second));
            && s.sideRx == [reg] && |s.running| == 2 && s.running[1].waiter == second
            && GetCodeByHash(keccak, second.request, s.running[1].ctx, rpc)
               == Err(MissingAddressHint(second.request.codeHash))
  {
    var s0: CodeState := Init(map[], limit);
    var s2 := s0.(received := {first.id}, phase := Serving(first));
    assert s2 == Step(CODE_SPEC, Step(CODE_SPEC, s0, Receive(first)), TakeRequest);
    var s4 := s2.(sideRx := [reg], received := {first.id, second.id}, fetchRx := [second]);
    assert s4 == Step(CODE_SPEC, Step(CODE_SPEC, s2, SideSend(reg)), Receive(second));
    SpawnsUnhinted(s4, first);
    var s6 := Step(CODE_SPEC, Step(CODE_SPEC, s4, Serve), Spawn);
    SpawnsUnhinted(s6, second);
    LateDrainUnfolds(s0, first, reg, second, s2, s4, s6);
  }
}
