/** The four kinds of fetch: accounts, storage slots and block hashes are guarded by the block hash
    they were asked at; bytecode is keyed by its own hash and is not. */
module Managers {
  import opened Types
  import opened ManagerCore

  /** The account manager's context is its end of the side channel: the registrations it has sent. */
  type AccountCtx = seq<CodeRegistration>
  type CodeHints = map<B256, Address>

  type AccountSpecType = FetchSpec<AccountRequest, Address, AccountInfo, Option<AccountInfo>, AccountCtx, ()>
  type CodeSpecType = FetchSpec<CodeRequest, B256, Bytecode, Bytecode, CodeHints, CodeRegistration>
  type StorageSpecType = FetchSpec<StorageRequest, (Address, U256), U256, U256, (), ()>
  type BlockHashSpecType = FetchSpec<BlockHashRequest, nat, B256, B256, (), ()>

  type AccountState = State<AccountRequest, Address, AccountInfo, Option<AccountInfo>, AccountCtx, ()>
  type CodeState = State<CodeRequest, B256, Bytecode, Bytecode, CodeHints, CodeRegistration>
  type StorageState = State<StorageRequest, (Address, U256), U256, U256, (), ()>
  type BlockHashState = State<BlockHashRequest, nat, B256, B256, (), ()>

  type AccountAction = Action<AccountRequest, Option<AccountInfo>, ()>
  type CodeAction = Action<CodeRequest, Bytecode, CodeRegistration>
  type StorageAction = Action<StorageRequest, U256, ()>
  type BlockHashAction = Action<BlockHashRequest, B256, ()>

  function Register(sent: AccountCtx, address: Address, resp: Option<AccountInfo>): AccountCtx {
    match resp
    case Some(info) => sent + [CodeRegistration(info.codeHash, address)]
    case None => sent
  }

  const ACCOUNT_SPEC: AccountSpecType := FetchSpec(
    true,
    (req: AccountRequest) => Some(req.blockHash),
    (req: AccountRequest) => req.address,
    (info: AccountInfo) => Some(info),
    (resp: Option<AccountInfo>) => resp,
    Register,
    (sent: AccountCtx, side: ()) => sent)

  const CODE_SPEC: CodeSpecType := FetchSpec(
    false,
    (req: CodeRequest) => None,
    (req: CodeRequest) => req.codeHash,
    (code: Bytecode) => code,
    (code: Bytecode) => Some(code),
    (hints: CodeHints, codeHash: B256, code: Bytecode) => hints,
    (hints: CodeHints, reg: CodeRegistration) => hints[reg.codeHash := reg.address])

  const STORAGE_SPEC: StorageSpecType := FetchSpec(
    true,
    (req: StorageRequest) => Some(req.blockHash),
    (req: StorageRequest) => (req.address, req.index),
    (value: U256) => value,
    (value: U256) => Some(value),
    (ctx: (), key: (Address, U256), value: U256) => ctx,
    (ctx: (), side: ()) => ctx)

  const BLOCK_HASH_SPEC: BlockHashSpecType := FetchSpec(
    true,
    (req: BlockHashRequest) => Some(req.atBlockHash),
    (req: BlockHashRequest) => req.number,
    (hash: B256) => hash,
    (hash: B256) => Some(hash),
    (ctx: (), key: nat, hash: B256) => ctx,
    (ctx: (), side: ()) => ctx)

  lemma SpecsAreLawful()
    ensures Lawful(ACCOUNT_SPEC) && Lawful(CODE_SPEC) && Lawful(STORAGE_SPEC) && Lawful(BLOCK_HASH_SPEC)
  {
  }

  /** The address a code fetch asks at: the request's own hint, else what an account fetch registered. */
  function HintFor(req: CodeRequest, hints: CodeHints): Option<Address> {
    if req.addressHint.Some? then req.addressHint
    else if req.codeHash in hints then Some(hints[req.codeHash])
    else None
  }

  /** `get_code_by_hash`: nothing is asked without a hint, the code is asked for at the hinted address and the
      request's block, and code that does not hash to the key is refused. */
  function GetCodeByHash(keccak: Bytecode -> B256, req: CodeRequest, hints: CodeHints,
                         rpc: (Address, nat) -> Result<Bytecode>)
    : (r: Result<Bytecode>)
    ensures r.Ok? ==> keccak(r.value) == req.codeHash
    ensures r == Err(MissingAddressHint(req.codeHash)) <==> req.addressHint.None? && req.codeHash !in hints
    ensures forall address, code ::
              (req.addressHint == Some(address)
               || (req.addressHint.None? && req.codeHash in hints && hints[req.codeHash] == address))
              && rpc(address, req.block) == Ok(code)
              ==> r == if keccak(code) == req.codeHash then Ok(code)
                       else Err(CodeHashMismatch(address, req.codeHash, keccak(code)))
    ensures forall address ::
              (req.addressHint == Some(address)
               || (req.addressHint.None? && req.codeHash in hints && hints[req.codeHash] == address))
              && rpc(address, req.block).Err?
              ==> r == Err(Rpc)
  {
    match HintFor(req, hints)
    case None => Err(MissingAddressHint(req.codeHash))
    case Some(address) =>
      match rpc(address, req.block)
      case Err(_) => Err(Rpc)
      case Ok(code) =>
        if keccak(code) != req.codeHash then Err(CodeHashMismatch(address, req.codeHash, keccak(code)))
        else Ok(code)
  }

  /** After a drain of the side queue the hint for a hash is the address registered for it last. */
  lemma {:induction false} LastRegistrationWins(hints: CodeHints, q: seq<CodeRegistration>, i: nat)
    requires i < |q| && forall j :: i < j < |q| ==> q[j].codeHash != q[i].codeHash
    ensures var known := FoldSide(CODE_SPEC, hints, q);
            q[i].codeHash in known && known[q[i].codeHash] == q[i].address
    decreases |q|
  {
    var next := CODE_SPEC.onSide(hints, q[0]);
    if i > 0 {
      LastRegistrationWins(next, q[1..], i - 1);
    } else {
      FoldKeepsOthers(next, q[1..], q[0].codeHash);
    }
  }

  lemma {:induction false} FoldKeepsOthers(hints: CodeHints, q: seq<CodeRegistration>, h: B256)
    requires h in hints && forall r :: r in q ==> r.codeHash != h
    ensures var known := FoldSide(CODE_SPEC, hints, q); h in known && known[h] == hints[h]
    decreases |q|
  {
    if q == [] {
    } else {
      assert q[0] in q;
      FoldKeepsOthers(CODE_SPEC.onSide(hints, q[0]), q[1..], h);
    }
  }
}
