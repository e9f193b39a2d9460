/** What becomes of a read: a stale snapshot refuses it, a snapshot that holds the key answers it, and any other
    asks the right manager, once, for the loaded snapshot's own block. Nothing here depends on the RPC. */
module Reads {
  import opened Types
  import opened Snapshots
  import opened ManagerCore
  import opened ManagerProofs
  import opened FlushProofs
  import opened Managers
  import opened Systems
  import opened Parties
  import opened Linearizability
  import opened Memory

  // ---------------------------------------------------------------------------------------------
  // What a manager has been asked

  /** Every message in the manager was asked for, and only waiters that want something are known to it. */
  ghost predicate Asks<Req, Key, Val, Resp, Ctx, Side>(
    spec: FetchSpec<Req, Key, Val, Resp, Ctx, Side>, s: State<Req, Key, Val, Resp, Ctx, Side>,
    asked: Message<Req> -> bool, wants: nat -> bool)
  {
    Provenance(spec, s, asked, AnyAnswer) && forall id :: id in s.received ==> wants(id)
  }

  lemma AsksStep<Req(!new), Key, Val, Resp(!new), Ctx, Side>(
    spec: FetchSpec<Req, Key, Val, Resp, Ctx, Side>, s: State<Req, Key, Val, Resp, Ctx, Side>,
    a: Action<Req, Resp, Side>, asked: Message<Req> -> bool, wants: nat -> bool)
    requires Lawful(spec) && Asks(spec, s, asked, wants)
    requires a.Receive? ==> asked(a.msg) && wants(a.msg.id)
    ensures Asks(spec, Step(spec, s, a), asked, wants)
  {
    assert Honest(spec, s, a, asked, AnyAnswer);
    ProvenanceStep(spec, s, a, asked, AnyAnswer);
    ReceivedIsAsked(spec, s, a);
  }

  lemma ReceivedIsAsked<Req, Key, Val, Resp, Ctx, Side>(
    spec: FetchSpec<Req, Key, Val, Resp, Ctx, Side>, s: State<Req, Key, Val, Resp, Ctx, Side>,
    a: Action<Req, Resp, Side>)
    ensures Step(spec, s, a).received == if a.Receive? then s.received + {a.msg.id} else s.received
  {
  }

  lemma AsksMore<Req(!new), Key, Val, Resp, Ctx, Side>(
    spec: FetchSpec<Req, Key, Val, Resp, Ctx, Side>, s: State<Req, Key, Val, Resp, Ctx, Side>,
    asked: Message<Req> -> bool, wants: nat -> bool, asked': Message<Req> -> bool, wants': nat -> bool)
    requires Asks(spec, s, asked, wants)
    requires (forall m :: asked(m) ==> asked'(m)) && forall id :: wants(id) ==> wants'(id)
    ensures Asks(spec, s, asked', wants')
  {
    ProvenanceWeaken(spec, s, asked, asked', AnyAnswer);
  }

  lemma AsksApart<Req, Key, Val, Resp, Ctx, Side>(
    spec: FetchSpec<Req, Key, Val, Resp, Ctx, Side>, s: State<Req, Key, Val, Resp, Ctx, Side>, ctx: Ctx,
    asked: Message<Req> -> bool, wants: nat -> bool)
    requires Asks(spec, s, asked, wants)
    ensures Asks(spec, s.(ctx := ctx), asked, wants)
  {
  }

  /** Wherever the waiter is in the manager, this is what it asked. */
  ghost predicate CarriesRequest<Req, Key, Val, Resp, Ctx, Side>(
    s: State<Req, Key, Val, Resp, Ctx, Side>, id: nat, req: Req)
  {
    && (forall m :: m in s.fetchRx && m.id == id ==> m.request == req)
    && (s.phase.Serving? || s.phase.Acquiring? ==> s.phase.msg.id == id ==> s.phase.msg.request == req)
    && (forall t :: t in s.running && t.waiter.id == id ==> t.waiter.request == req)
    && (forall d :: d in s.sending && d.waiter.id == id ==> d.waiter.request == req)
    && (forall d :: d in s.completionRx && d.waiter.id == id ==> d.waiter.request == req)
    && (forall r :: r in s.replies && r.waiter.id == id ==> r.waiter.request == req)
  }

  lemma AskedIsCarried<Req, Key, Val, Resp, Ctx, Side>(
    spec: FetchSpec<Req, Key, Val, Resp, Ctx, Side>, s: State<Req, Key, Val, Resp, Ctx, Side>,
    asked: Message<Req> -> bool, wants: nat -> bool, id: nat, req: Req)
    requires Asks(spec, s, asked, wants)
    requires forall m :: asked(m) && m.id == id ==> m.request == req
    ensures CarriesRequest(s, id, req)
  {
    forall t | t in s.running && t.waiter.id == id
      ensures t.waiter.request == req
    {
      assert FetchOk(spec, s, asked, t.waiter, t.key, t.epoch);
    }
    forall d | (d in s.sending || d in s.completionRx) && d.waiter.id == id
      ensures d.waiter.request == req
    {
      assert FetchOk(spec, s, asked, d.waiter, d.key, d.epoch);
    }
  }

  lemma AdvanceKeepsReceived<Req(!new), Key, Val, Resp(!new), Ctx, Side(!new)>(
    spec: FetchSpec<Req, Key, Val, Resp, Ctx, Side>, s: State<Req, Key, Val, Resp, Ctx, Side>,
    s': State<Req, Key, Val, Resp, Ctx, Side>)
    requires Advances(spec, s, s')
    ensures s.received <= s'.received
  {
    if s' != s.(ctx := s'.ctx) {
      var a :| s' == Step(spec, s, a);
      ReceivedIsAsked(spec, s, a);
    }
  }

  /** The answer is owed exactly once: given, or to come. */
  predicate OwedOnce<Req, Key, Val, Resp, Ctx, Side>(s: State<Req, Key, Val, Resp, Ctx, Side>, id: nat) {
    id in s.received && Outstanding(s, id) + Answered(s, id) == 1
  }

  /** The read is refused outright, with this error. */
  ghost predicate RefusedWith(l: Load, error: SimError) {
    match l.read
    case AccountRead(address) => BasicRef(l.snapshot, address) == Refused(error)
    case StorageRead(address, index) => StorageRef(l.snapshot, address, index) == Refused(error)
    case CodeRead(h) => CodeByHashRef(l.snapshot, h) == Refused(error)
    case BlockHashRead(n) => BlockHashRef(l.snapshot, n) == Refused(error)
  }

  /** After the load at move `k`, some move hands the read on. */
  ghost predicate HandedOn(moves: seq<Move>, k: nat, i: nat) {
    exists j :: k < j < |moves| && moves[j] == Submit(i)
  }

  // ---------------------------------------------------------------------------------------------
  // The system

  ghost predicate AllAsk(s: System) {
    AccountAsks(s.loads, s.accounts) && StorageAsks(s.loads, s.storage)
    && CodeAsks(s.loads, s.code) && BlockHashAsks(s.loads, s.blockHashes)
  }

  /** A load that its live snapshot cannot answer. */
  ghost predicate AccountWanted(loads: seq<Load>, id: nat) {
    && id < |loads|
    && var l := loads[id];
       l.read.AccountRead? && !l.snapshot.stale && l.read.address !in l.snapshot.accounts
  }

  ghost predicate AccountRequested(loads: seq<Load>, m: Message<AccountRequest>) {
    && AccountWanted(loads, m.id)
    && var l := loads[m.id];
       m.request == AccountRequest(l.read.address, l.snapshot.block, l.snapshot.blockHash)
  }

  ghost predicate AccountAsks(loads: seq<Load>, s: AccountState) {
    Asks(ACCOUNT_SPEC, s, m => AccountRequested(loads, m), (id: nat) => AccountWanted(loads, id))
  }

  /** A load that its live snapshot cannot answer. */
  ghost predicate StorageWanted(loads: seq<Load>, id: nat) {
    && id < |loads|
    && var l := loads[id];
       l.read.StorageRead? && !l.snapshot.stale && (l.read.account, l.read.index) !in l.snapshot.storage
  }

  ghost predicate StorageRequested(loads: seq<Load>, m: Message<StorageRequest>) {
    && StorageWanted(loads, m.id)
    && var l := loads[m.id];
       m.request == StorageRequest(l.read.account, l.read.index, l.snapshot.block, l.snapshot.blockHash)
  }

  ghost predicate StorageAsks(loads: seq<Load>, s: StorageState) {
    Asks(STORAGE_SPEC, s, m => StorageRequested(loads, m), (id: nat) => StorageWanted(loads, id))
  }

  /** A load that its live snapshot cannot answer. */
  ghost predicate CodeWanted(loads: seq<Load>, id: nat) {
    && id < |loads|
    && var l := loads[id];
       l.read.CodeRead? && !l.snapshot.stale && l.read.codeHash !in l.snapshot.code
  }

  ghost predicate CodeRequested(loads: seq<Load>, m: Message<CodeRequest>) {
    && CodeWanted(loads, m.id)
    && var l := loads[m.id];
       m.request == CodeRequest(l.read.codeHash, l.snapshot.block, None)
  }

  ghost predicate CodeAsks(loads: seq<Load>, s: CodeState) {
    Asks(CODE_SPEC, s, m => CodeRequested(loads, m), (id: nat) => CodeWanted(loads, id))
  }

  /** A load that its live snapshot cannot answer. */
  ghost predicate BlockHashWanted(loads: seq<Load>, id: nat) {
    && id < |loads|
    && var l := loads[id];
       l.read.BlockHashRead? && !l.snapshot.stale && l.read.number !in l.snapshot.blockHashes
  }

  ghost predicate BlockHashRequested(loads: seq<Load>, m: Message<BlockHashRequest>) {
    && BlockHashWanted(loads, m.id)
    && var l := loads[m.id];
       m.request == BlockHashRequest(l.read.number, l.snapshot.blockHash)
  }

  ghost predicate BlockHashAsks(loads: seq<Load>, s: BlockHashState) {
    Asks(BLOCK_HASH_SPEC, s, m => BlockHashRequested(loads, m), (id: nat) => BlockHashWanted(loads, id))
  }

  lemma AccountMoveAsks(keccak: Bytecode -> B256, s: System, m: Move)
    requires AccountAsks(s.loads, s.accounts)
    ensures var s' := SystemStep(keccak, s, m);
            AccountAsks(s'.loads, s'.accounts)
  {
    SpecsAreLawful();
    var s' := SystemStep(keccak, s, m);
    var asked, wants := m => AccountRequested(s.loads, m), (id: nat) => AccountWanted(s.loads, id);
    if m.LoadFor? {
      AsksMore(ACCOUNT_SPEC, s.accounts, asked, wants,
               m => AccountRequested(s'.loads, m), (id: nat) => AccountWanted(s'.loads, id));
    } else if m.Submit? && m.load < |s.loads| && s.loads[m.load].read.AccountRead? {
      var l := s.loads[m.load];
      var step := BasicRef(l.snapshot, l.read.address);
      if step.Ask? {
        AsksStep(ACCOUNT_SPEC, s.accounts, Receive(Message(m.load, step.request)), asked, wants);
      }
    } else if m.Notify? && s.writer.Waiting? {
      AsksStep(ACCOUNT_SPEC, s.accounts, RequestFlush, asked, wants);
    } else if m.AccountMove? && Own(m.accountAction) {
      AsksStep(ACCOUNT_SPEC, s.accounts, m.accountAction, asked, wants);
    } else if m.ForwardRegistration? && s.accounts.ctx != [] {
      AsksApart(ACCOUNT_SPEC, s.accounts, s.accounts.ctx[1..], asked, wants);
    }
  }

  lemma StorageMoveAsks(keccak: Bytecode -> B256, s: System, m: Move)
    requires StorageAsks(s.loads, s.storage)
    ensures var s' := SystemStep(keccak, s, m);
            StorageAsks(s'.loads, s'.storage)
  {
    SpecsAreLawful();
    var s' := SystemStep(keccak, s, m);
    var asked, wants := m => StorageRequested(s.loads, m), (id: nat) => StorageWanted(s.loads, id);
    if m.LoadFor? {
      AsksMore(STORAGE_SPEC, s.storage, asked, wants,
               m => StorageRequested(s'.loads, m), (id: nat) => StorageWanted(s'.loads, id));
    } else if m.Submit? && m.load < |s.loads| && s.loads[m.load].read.StorageRead? {
      var l := s.loads[m.load];
      var step := StorageRef(l.snapshot, l.read.account, l.read.index);
      if step.Ask? {
        AsksStep(STORAGE_SPEC, s.storage, Receive(Message(m.load, step.request)), asked, wants);
      }
    } else if m.Notify? && s.writer.Waiting? {
      AsksStep(STORAGE_SPEC, s.storage, RequestFlush, asked, wants);
    } else if m.StorageMove? && Own(m.storageAction) {
      AsksStep(STORAGE_SPEC, s.storage, m.storageAction, asked, wants);
    }
  }

  lemma CodeMoveAsks(keccak: Bytecode -> B256, s: System, m: Move)
    requires CodeAsks(s.loads, s.code)
    ensures var s' := SystemStep(keccak, s, m);
            CodeAsks(s'.loads, s'.code)
  {
    SpecsAreLawful();
    var s' := SystemStep(keccak, s, m);
    var asked, wants := m => CodeRequested(s.loads, m), (id: nat) => CodeWanted(s.loads, id);
    if m.LoadFor? {
      AsksMore(CODE_SPEC, s.code, asked, wants,
               m => CodeRequested(s'.loads, m), (id: nat) => CodeWanted(s'.loads, id));
    } else if m.Submit? && m.load < |s.loads| && s.loads[m.load].read.CodeRead? {
      var l := s.loads[m.load];
      var step := CodeByHashRef(l.snapshot, l.read.codeHash);
      if step.Ask? {
        AsksStep(CODE_SPEC, s.code, Receive(Message(m.load, step.request)), asked, wants);
      }
    } else if m.Notify? && s.writer.Waiting? {
      AsksStep(CODE_SPEC, s.code, RequestFlush, asked, wants);
    } else if m.CodeMove? && Own(m.codeAction) && !m.codeAction.FinishFetch? {
      AsksStep(CODE_SPEC, s.code, m.codeAction, asked, wants);
    } else if m.CodeAnswer? && m.task < |s.code.running| {
      var t := s.code.running[m.task];
      var result := GetCodeByHash(keccak, t.waiter.request, t.ctx, m.rpc);
      AsksStep(CODE_SPEC, s.code, FinishFetch(m.task, result), asked, wants);
    } else if m.ForwardRegistration? && s.accounts.ctx != [] {
      AsksStep(CODE_SPEC, s.code, SideSend(s.accounts.ctx[0]), asked, wants);
    }
  }

  lemma BlockHashMoveAsks(keccak: Bytecode -> B256, s: System, m: Move)
    requires BlockHashAsks(s.loads, s.blockHashes)
    ensures var s' := SystemStep(keccak, s, m);
            BlockHashAsks(s'.loads, s'.blockHashes)
  {
    SpecsAreLawful();
    var s' := SystemStep(keccak, s, m);
    var asked, wants := m => BlockHashRequested(s.loads, m), (id: nat) => BlockHashWanted(s.loads, id);
    if m.LoadFor? {
      AsksMore(BLOCK_HASH_SPEC, s.blockHashes, asked, wants,
               m => BlockHashRequested(s'.loads, m), (id: nat) => BlockHashWanted(s'.loads, id));
    } else if m.Submit? && m.load < |s.loads| && s.loads[m.load].read.BlockHashRead? {
      var l := s.loads[m.load];
      var step := BlockHashRef(l.snapshot, l.read.number);
      if step.Ask? {
        AsksStep(BLOCK_HASH_SPEC, s.blockHashes, Receive(Message(m.load, step.request)), asked, wants);
      }
    } else if m.Notify? && s.writer.Waiting? {
      AsksStep(BLOCK_HASH_SPEC, s.blockHashes, RequestFlush, asked, wants);
    } else if m.BlockHashMove? && Own(m.blockHashAction) {
      AsksStep(BLOCK_HASH_SPEC, s.blockHashes, m.blockHashAction, asked, wants);
    }
  }

  lemma MoveAsks(keccak: Bytecode -> B256, s: System, m: Move)
    requires AllAsk(s)
    ensures AllAsk(SystemStep(keccak, s, m))
  {
    AccountMoveAsks(keccak, s, m);
    StorageMoveAsks(keccak, s, m);
    CodeMoveAsks(keccak, s, m);
    BlockHashMoveAsks(keccak, s, m);
  }

  lemma InitAsks<Req, Key, Val, Resp, Ctx, Side>(
    spec: FetchSpec<Req, Key, Val, Resp, Ctx, Side>, ctx: Ctx, limit: nat,
    asked: Message<Req> -> bool, wants: nat -> bool)
    ensures Asks(spec, Init(ctx, limit), asked, wants)
  {
  }

  lemma StartAsks(a: nat, c: nat, g: nat, b: nat)
    ensures AllAsk(Start(a, c, g, b))
  {
    InitAsks(ACCOUNT_SPEC, [], ClampConcurrency(a), m => AccountRequested([], m), (id: nat) => AccountWanted([], id));
    InitAsks(STORAGE_SPEC, (), ClampConcurrency(g), m => StorageRequested([], m), (id: nat) => StorageWanted([], id));
    InitAsks(CODE_SPEC, map[], ClampConcurrency(c), m => CodeRequested([], m), (id: nat) => CodeWanted([], id));
    InitAsks(BLOCK_HASH_SPEC, (), ClampConcurrency(b), m => BlockHashRequested([], m),
             (id: nat) => BlockHashWanted([], id));
  }

  lemma {:induction false} ExecuteAsks(keccak: Bytecode -> B256, a: nat, c: nat, g: nat, b: nat, moves: seq<Move>)
    ensures AllAsk(Execute(keccak, Start(a, c, g, b), moves))
    decreases |moves|
  {
    if moves == [] {
      StartAsks(a, c, g, b);
    } else {
      var front := moves[..|moves| - 1];
      ExecuteAsks(keccak, a, c, g, b, front);
      MoveAsks(keccak, Execute(keccak, Start(a, c, g, b), front), moves[|moves| - 1]);
    }
  }

  /** A manager never forgets having received a request. */
  ghost predicate NothingForgotten(s: System, s': System) {
    && s.accounts.received <= s'.accounts.received && s.storage.received <= s'.storage.received
    && s.code.received <= s'.code.received && s.blockHashes.received <= s'.blockHashes.received
  }

  lemma {:induction false} ReceivedStays(keccak: Bytecode -> B256, start: System, moves: seq<Move>, j: nat)
    requires j <= |moves|
    ensures NothingForgotten(Execute(keccak, start, moves[..j]), Execute(keccak, start, moves))
    decreases |moves|
  {
    if j == |moves| {
      assert moves[..j] == moves;
    } else {
      var front, m := moves[..|moves| - 1], moves[|moves| - 1];
      assert front[..j] == moves[..j];
      ReceivedStays(keccak, start, front, j);
      MoveKeepsReceived(keccak, Execute(keccak, start, front), m);
    }
  }

  lemma MoveKeepsReceived(keccak: Bytecode -> B256, s: System, m: Move)
    ensures NothingForgotten(s, SystemStep(keccak, s, m))
  {
    var s' := SystemStep(keccak, s, m);
    AccountsAdvance(keccak, s, m);
    AdvanceKeepsReceived(ACCOUNT_SPEC, s.accounts, s'.accounts);
    StorageAdvances(keccak, s, m);
    AdvanceKeepsReceived(STORAGE_SPEC, s.storage, s'.storage);
    CodeAdvances(keccak, s, m);
    AdvanceKeepsReceived(CODE_SPEC, s.code, s'.code);
    BlockHashesAdvance(keccak, s, m);
    AdvanceKeepsReceived(BLOCK_HASH_SPEC, s.blockHashes, s'.blockHashes);
  }

  /** The load made at move `k` is still what it was at move `j`, later. */
  lemma LoadAtSubmit(keccak: Bytecode -> B256, start: System, moves: seq<Move>, k: nat, j: nat)
    requires k < j <= |moves| && moves[k].LoadFor?
    ensures var i, s := LoadOf(keccak, start, moves, k), Execute(keccak, start, moves[..j]);
            i < |s.loads| && s.loads[i] == Load(Execute(keccak, start, moves[..k]).published, moves[k].read)
  {
    assert moves[..j][..k] == moves[..k];
    LoadIsRecorded(keccak, start, moves[..j], k);
  }

  /** The move that hands the read on finds the load as it was made, and what a manager has then received it still
      has at the end. */
  lemma HandOver(keccak: Bytecode -> B256, start: System, moves: seq<Move>, j: nat, i: nat)
    requires j < |moves| && moves[j] == Submit(i)
    ensures NothingForgotten(SystemStep(keccak, Execute(keccak, start, moves[..j]), Submit(i)),
                             Execute(keccak, start, moves))
  {
    assert moves[..j + 1][..j] == moves[..j];
    assert Execute(keccak, start, moves[..j + 1]) == SystemStep(keccak, Execute(keccak, start, moves[..j]), moves[j]);
    ReceivedStays(keccak, start, moves, j + 1);
  }

  lemma SubmitMove(keccak: Bytecode -> B256, start: System, moves: seq<Move>, k: nat) returns (j: nat)
    requires k < |moves| && moves[k].LoadFor? && HandedOn(moves, k, LoadOf(keccak, start, moves, k))
    ensures k < j < |moves|
    ensures var i, s := LoadOf(keccak, start, moves, k), Execute(keccak, start, moves[..j]);
            && i < |s.loads| && s.loads[i] == Load(Execute(keccak, start, moves[..k]).published, moves[k].read)
            && NothingForgotten(SystemStep(keccak, s, Submit(i)), Execute(keccak, start, moves))
  {
    var i := LoadOf(keccak, start, moves, k);
    j :| k < j < |moves| && moves[j] == Submit(i);
    LoadAtSubmit(keccak, start, moves, k, j);
    HandOver(keccak, start, moves, j, i);
  }

  // ---------------------------------------------------------------------------------------------
  // Account reads

  lemma {:induction false} AccountSubmitted(keccak: Bytecode -> B256, a: nat, c: nat, g: nat, b: nat,
                                       moves: seq<Move>, k: nat, address: Address)
    requires k < |moves| && moves[k] == LoadFor(AccountRead(address))
    requires HandedOn(moves, k, LoadOf(keccak, Start(a, c, g, b), moves, k))
    requires var at := Execute(keccak, Start(a, c, g, b), moves[..k]).published;
             !at.stale && address !in at.accounts
    ensures LoadOf(keccak, Start(a, c, g, b), moves, k)
            in Execute(keccak, Start(a, c, g, b), moves).accounts.received
  {
    var j := SubmitMove(keccak, Start(a, c, g, b), moves, k);
    AccountIsAsked(keccak, Execute(keccak, Start(a, c, g, b), moves[..j]), LoadOf(keccak, Start(a, c, g, b), moves, k));
  }

  lemma AccountIsAsked(keccak: Bytecode -> B256, s: System, i: nat)
    requires AccountWanted(s.loads, i)
    ensures i in SystemStep(keccak, s, Submit(i)).accounts.received
  {
    var l := s.loads[i];
    var req := AccountRequest(l.read.address, l.snapshot.block, l.snapshot.blockHash);
    ReceivedIsAsked(ACCOUNT_SPEC, s.accounts, Receive(Message(i, req)));
  }

  lemma AccountAsLoaded(s: System, i: nat, at: Snapshot, address: Address)
    requires AllAsk(s) && AllExact(s) && i < |s.loads| && s.loads[i] == Load(at, AccountRead(address))
    ensures at.stale ==> i !in s.accounts.received && forall v :: !AccountReturned(s, i, address, v)
    ensures forall e :: RefusedWith(s.loads[i], e) <==> at.stale && e == StaleState
    ensures !at.stale && address in at.accounts ==>
              && i !in s.accounts.received
              && forall v :: AccountReturned(s, i, address, v) <==> v == Some(at.accounts[address])
    ensures !at.stale && address !in at.accounts ==>
              && CarriesRequest(s.accounts, i, AccountRequest(address, at.block, at.blockHash))
              && (i in s.accounts.received ==> OwedOnce(s.accounts, i))
  {
    var asked, wants := m => AccountRequested(s.loads, m), (id: nat) => AccountWanted(s.loads, id);
    if at.stale || address in at.accounts {
      assert !wants(i);
      assert forall r :: r in s.accounts.replies ==> asked(r.waiter);
    } else {
      AskedIsCarried(ACCOUNT_SPEC, s.accounts, asked, wants, i, AccountRequest(address, at.block, at.blockHash));
      assert Outstanding(s.accounts, i) + Answered(s.accounts, i) == if i in s.accounts.received then 1 else 0;
    }
  }

  // ---------------------------------------------------------------------------------------------
  // Storage reads

  lemma {:induction false} StorageSubmitted(keccak: Bytecode -> B256, a: nat, c: nat, g: nat, b: nat,
                                       moves: seq<Move>, k: nat, address: Address, index: U256)
    requires k < |moves| && moves[k] == LoadFor(StorageRead(address, index))
    requires HandedOn(moves, k, LoadOf(keccak, Start(a, c, g, b), moves, k))
    requires var at := Execute(keccak, Start(a, c, g, b), moves[..k]).published;
             !at.stale && (address, index) !in at.storage
    ensures LoadOf(keccak, Start(a, c, g, b), moves, k)
            in Execute(keccak, Start(a, c, g, b), moves).storage.received
  {
    var j := SubmitMove(keccak, Start(a, c, g, b), moves, k);
    StorageIsAsked(keccak, Execute(keccak, Start(a, c, g, b), moves[..j]), LoadOf(keccak, Start(a, c, g, b), moves, k));
  }

  lemma StorageIsAsked(keccak: Bytecode -> B256, s: System, i: nat)
    requires StorageWanted(s.loads, i)
    ensures i in SystemStep(keccak, s, Submit(i)).storage.received
  {
    var l := s.loads[i];
    var req := StorageRequest(l.read.account, l.read.index, l.snapshot.block, l.snapshot.blockHash);
    ReceivedIsAsked(STORAGE_SPEC, s.storage, Receive(Message(i, req)));
  }

  lemma StorageAsLoaded(s: System, i: nat, at: Snapshot, address: Address, index: U256)
    requires AllAsk(s) && AllExact(s) && i < |s.loads| && s.loads[i] == Load(at, StorageRead(address, index))
    ensures at.stale ==> i !in s.storage.received && forall v :: !StorageReturned(s, i, address, index, v)
    ensures forall e :: RefusedWith(s.loads[i], e) <==> at.stale && e == StaleState
    ensures !at.stale && (address, index) in at.storage ==>
              && i !in s.storage.received
              && forall v :: StorageReturned(s, i, address, index, v) <==> v == at.storage[(address, index)]
    ensures !at.stale && (address, index) !in at.storage ==>
              && CarriesRequest(s.storage, i, StorageRequest(address, index, at.block, at.blockHash))
              && (i in s.storage.received ==> OwedOnce(s.storage, i))
  {
    var asked, wants := m => StorageRequested(s.loads, m), (id: nat) => StorageWanted(s.loads, id);
    if at.stale || (address, index) in at.storage {
      assert !wants(i);
      assert forall r :: r in s.storage.replies ==> asked(r.waiter);
    } else {
      AskedIsCarried(STORAGE_SPEC, s.storage, asked, wants, i, StorageRequest(address, index, at.block, at.blockHash));
      assert Outstanding(s.storage, i) + Answered(s.storage, i) == if i in s.storage.received then 1 else 0;
    }
  }

  // ---------------------------------------------------------------------------------------------
  // Code reads

  lemma {:induction false} CodeSubmitted(keccak: Bytecode -> B256, a: nat, c: nat, g: nat, b: nat,
                                       moves: seq<Move>, k: nat, h: B256)
    requires k < |moves| && moves[k] == LoadFor(CodeRead(h))
    requires HandedOn(moves, k, LoadOf(keccak, Start(a, c, g, b), moves, k))
    requires var at := Execute(keccak, Start(a, c, g, b), moves[..k]).published;
             !at.stale && h !in at.code
    ensures LoadOf(keccak, Start(a, c, g, b), moves, k)
            in Execute(keccak, Start(a, c, g, b), moves).code.received
  {
    var j := SubmitMove(keccak, Start(a, c, g, b), moves, k);
    CodeIsAsked(keccak, Execute(keccak, Start(a, c, g, b), moves[..j]), LoadOf(keccak, Start(a, c, g, b), moves, k));
  }

  lemma CodeIsAsked(keccak: Bytecode -> B256, s: System, i: nat)
    requires CodeWanted(s.loads, i)
    ensures i in SystemStep(keccak, s, Submit(i)).code.received
  {
    var l := s.loads[i];
    var req := CodeRequest(l.read.codeHash, l.snapshot.block, None);
    ReceivedIsAsked(CODE_SPEC, s.code, Receive(Message(i, req)));
  }

  lemma CodeAsLoaded(s: System, i: nat, at: Snapshot, h: B256)
    requires AllAsk(s) && AllExact(s) && i < |s.loads| && s.loads[i] == Load(at, CodeRead(h))
    ensures at.stale ==> i !in s.code.received && forall v :: !CodeReturned(s, i, h, v)
    ensures forall e :: RefusedWith(s.loads[i], e) <==> at.stale && e == StaleState
    ensures !at.stale && h in at.code ==>
              && i !in s.code.received
              && forall v :: CodeReturned(s, i, h, v) <==> v == at.code[h]
    ensures !at.stale && h !in at.code ==>
              && CarriesRequest(s.code, i, CodeRequest(h, at.block, None))
              && (i in s.code.received ==> OwedOnce(s.code, i))
  {
    var asked, wants := m => CodeRequested(s.loads, m), (id: nat) => CodeWanted(s.loads, id);
    if at.stale || h in at.code {
      assert !wants(i);
      assert forall r :: r in s.code.replies ==> asked(r.waiter);
    } else {
      AskedIsCarried(CODE_SPEC, s.code, asked, wants, i, CodeRequest(h, at.block, None));
      assert Outstanding(s.code, i) + Answered(s.code, i) == if i in s.code.received then 1 else 0;
    }
  }

  // ---------------------------------------------------------------------------------------------
  // BlockHash reads

  lemma {:induction false} BlockHashSubmitted(keccak: Bytecode -> B256, a: nat, c: nat, g: nat, b: nat,
                                       moves: seq<Move>, k: nat, n: nat)
    requires k < |moves| && moves[k] == LoadFor(BlockHashRead(n))
    requires HandedOn(moves, k, LoadOf(keccak, Start(a, c, g, b), moves, k))
    requires var at := Execute(keccak, Start(a, c, g, b), moves[..k]).published;
             !at.stale && n !in at.blockHashes
    ensures LoadOf(keccak, Start(a, c, g, b), moves, k)
            in Execute(keccak, Start(a, c, g, b), moves).blockHashes.received
  {
    var j := SubmitMove(keccak, Start(a, c, g, b), moves, k);
    var at := Execute(keccak, Start(a, c, g, b), moves[..j]);
    BlockHashIsAsked(keccak, at, LoadOf(keccak, Start(a, c, g, b), moves, k));
  }

  lemma BlockHashIsAsked(keccak: Bytecode -> B256, s: System, i: nat)
    requires BlockHashWanted(s.loads, i)
    ensures i in SystemStep(keccak, s, Submit(i)).blockHashes.received
  {
    var l := s.loads[i];
    var req := BlockHashRequest(l.read.number, l.snapshot.blockHash);
    ReceivedIsAsked(BLOCK_HASH_SPEC, s.blockHashes, Receive(Message(i, req)));
  }

  lemma BlockHashAsLoaded(s: System, i: nat, at: Snapshot, n: nat)
    requires AllAsk(s) && AllExact(s) && i < |s.loads| && s.loads[i] == Load(at, BlockHashRead(n))
    ensures at.stale ==> i !in s.blockHashes.received && forall v :: !BlockHashReturned(s, i, n, v)
    ensures forall e :: RefusedWith(s.loads[i], e) <==> at.stale && e == StaleState
    ensures !at.stale && n in at.blockHashes ==>
              && i !in s.blockHashes.received
              && forall v :: BlockHashReturned(s, i, n, v) <==> v == at.blockHashes[n]
    ensures !at.stale && n !in at.blockHashes ==>
              && CarriesRequest(s.blockHashes, i, BlockHashRequest(n, at.blockHash))
              && (i in s.blockHashes.received ==> OwedOnce(s.blockHashes, i))
  {
    var asked, wants := m => BlockHashRequested(s.loads, m), (id: nat) => BlockHashWanted(s.loads, id);
    if at.stale || n in at.blockHashes {
      assert !wants(i);
      assert forall r :: r in s.blockHashes.replies ==> asked(r.waiter);
    } else {
      AskedIsCarried(BLOCK_HASH_SPEC, s.blockHashes, asked, wants, i, BlockHashRequest(n, at.blockHash));
      assert Outstanding(s.blockHashes, i) + Answered(s.blockHashes, i) == if i in s.blockHashes.received then 1 else 0;
    }
  }

  /** An account read, from its load at move `k` to any later moment. Loaded from a stale snapshot it is
      refused and asks nothing; only then is it refused. Loaded from a live one that holds the account it returns
      just that, and asks nothing. Otherwise, handed on, it is in the account manager, owed one answer, and wherever
      it is there it asks for the account at the loaded snapshot's block and hash. */
  lemma {:induction false} AccountReadIsServed(keccak: Bytecode -> B256, a: nat, c: nat, g: nat, b: nat,
                                          moves: seq<Move>, k: nat, address: Address)
    requires k < |moves| && moves[k] == LoadFor(AccountRead(address))
    ensures var at := Execute(keccak, Start(a, c, g, b), moves[..k]).published;
            var s, i := Execute(keccak, Start(a, c, g, b), moves), LoadOf(keccak, Start(a, c, g, b), moves, k);
            && (forall e :: RefusedWith(Load(at, AccountRead(address)), e) <==> at.stale && e == StaleState)
            && (at.stale ==> i !in s.accounts.received && forall v :: !AccountReturned(s, i, address, v))
            && (!at.stale && address in at.accounts ==>
                  && i !in s.accounts.received
                  && forall v :: AccountReturned(s, i, address, v) <==> v == Some(at.accounts[address]))
            && (!at.stale && address !in at.accounts ==>
                  && CarriesRequest(s.accounts, i, AccountRequest(address, at.block, at.blockHash))
                  && (HandedOn(moves, k, i) ==> OwedOnce(s.accounts, i)))
  {
    var start := Start(a, c, g, b);
    var at, i := Execute(keccak, start, moves[..k]).published, LoadOf(keccak, start, moves, k);
    LoadIsRecorded(keccak, start, moves, k);
    ExecuteAsks(keccak, a, c, g, b, moves);
    ExecuteExact(keccak, a, c, g, b, moves);
    AccountAsLoaded(Execute(keccak, start, moves), i, at, address);
    if !at.stale && address !in at.accounts && HandedOn(moves, k, i) {
      AccountSubmitted(keccak, a, c, g, b, moves, k, address);
    }
  }

  /** The same for slots. */
  lemma {:induction false} StorageReadIsServed(keccak: Bytecode -> B256, a: nat, c: nat, g: nat, b: nat,
                                          moves: seq<Move>, k: nat, address: Address, index: U256)
    requires k < |moves| && moves[k] == LoadFor(StorageRead(address, index))
    ensures var at := Execute(keccak, Start(a, c, g, b), moves[..k]).published;
            var s, i := Execute(keccak, Start(a, c, g, b), moves), LoadOf(keccak, Start(a, c, g, b), moves, k);
            && (forall e :: RefusedWith(Load(at, StorageRead(address, index)), e) <==> at.stale && e == StaleState)
            && (at.stale ==> i !in s.storage.received && forall v :: !StorageReturned(s, i, address, index, v))
            && (!at.stale && (address, index) in at.storage ==>
                  && i !in s.storage.received
                  && forall v :: StorageReturned(s, i, address, index, v) <==> v == at.storage[(address, index)])
            && (!at.stale && (address, index) !in at.storage ==>
                  && CarriesRequest(s.storage, i, StorageRequest(address, index, at.block, at.blockHash))
                  && (HandedOn(moves, k, i) ==> OwedOnce(s.storage, i)))
  {
    var start := Start(a, c, g, b);
    var at, i := Execute(keccak, start, moves[..k]).published, LoadOf(keccak, start, moves, k);
    LoadIsRecorded(keccak, start, moves, k);
    ExecuteAsks(keccak, a, c, g, b, moves);
    ExecuteExact(keccak, a, c, g, b, moves);
    StorageAsLoaded(Execute(keccak, start, moves), i, at, address, index);
    if !at.stale && (address, index) !in at.storage && HandedOn(moves, k, i) {
      StorageSubmitted(keccak, a, c, g, b, moves, k, address, index);
    }
  }

  /** The same for code, asked with no address hint. */
  lemma {:induction false} CodeReadIsServed(keccak: Bytecode -> B256, a: nat, c: nat, g: nat, b: nat,
                                          moves: seq<Move>, k: nat, h: B256)
    requires k < |moves| && moves[k] == LoadFor(CodeRead(h))
    ensures var at := Execute(keccak, Start(a, c, g, b), moves[..k]).published;
            var s, i := Execute(keccak, Start(a, c, g, b), moves), LoadOf(keccak, Start(a, c, g, b), moves, k);
            && (forall e :: RefusedWith(Load(at, CodeRead(h)), e) <==> at.stale && e == StaleState)
            && (at.stale ==> i !in s.code.received && forall v :: !CodeReturned(s, i, h, v))
            && (!at.stale && h in at.code ==>
                  && i !in s.code.received
                  && forall v :: CodeReturned(s, i, h, v) <==> v == at.code[h])
            && (!at.stale && h !in at.code ==>
                  && CarriesRequest(s.code, i, CodeRequest(h, at.block, None))
                  && (HandedOn(moves, k, i) ==> OwedOnce(s.code, i)))
  {
    var start := Start(a, c, g, b);
    var at, i := Execute(keccak, start, moves[..k]).published, LoadOf(keccak, start, moves, k);
    LoadIsRecorded(keccak, start, moves, k);
    ExecuteAsks(keccak, a, c, g, b, moves);
    ExecuteExact(keccak, a, c, g, b, moves);
    CodeAsLoaded(Execute(keccak, start, moves), i, at, h);
    if !at.stale && h !in at.code && HandedOn(moves, k, i) {
      CodeSubmitted(keccak, a, c, g, b, moves, k, h);
    }
  }

  /** And for block hashes. */
  lemma {:induction false} BlockHashReadIsServed(keccak: Bytecode -> B256, a: nat, c: nat, g: nat, b: nat,
                                          moves: seq<Move>, k: nat, n: nat)
    requires k < |moves| && moves[k] == LoadFor(BlockHashRead(n))
    ensures var at := Execute(keccak, Start(a, c, g, b), moves[..k]).published;
            var s, i := Execute(keccak, Start(a, c, g, b), moves), LoadOf(keccak, Start(a, c, g, b), moves, k);
            && (forall e :: RefusedWith(Load(at, BlockHashRead(n)), e) <==> at.stale && e == StaleState)
            && (at.stale ==> i !in s.blockHashes.received && forall v :: !BlockHashReturned(s, i, n, v))
            && (!at.stale && n in at.blockHashes ==>
                  && i !in s.blockHashes.received
                  && forall v :: BlockHashReturned(s, i, n, v) <==> v == at.blockHashes[n])
            && (!at.stale && n !in at.blockHashes ==>
                  && CarriesRequest(s.blockHashes, i, BlockHashRequest(n, at.blockHash))
                  && (HandedOn(moves, k, i) ==> OwedOnce(s.blockHashes, i)))
  {
    var start := Start(a, c, g, b);
    var at, i := Execute(keccak, start, moves[..k]).published, LoadOf(keccak, start, moves, k);
    LoadIsRecorded(keccak, start, moves, k);
    ExecuteAsks(keccak, a, c, g, b, moves);
    ExecuteExact(keccak, a, c, g, b, moves);
    BlockHashAsLoaded(Execute(keccak, start, moves), i, at, n);
    if !at.stale && n !in at.blockHashes && HandedOn(moves, k, i) {
      BlockHashSubmitted(keccak, a, c, g, b, moves, k, n);
    }
  }
}
