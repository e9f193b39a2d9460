/** The vocabulary shared by the model: primitive chain values, fetch requests and the caches the
    fetch managers hand to the writer. */
module Types {

  datatype Option<+T> = None | Some(value: T)

  datatype Result<+T> = Ok(value: T) | Err(error: SimError)

  /** A 256-bit hash. The state layer only ever compares hashes and tests them against zero. */
  type B256 = nat
  type Address = nat
  type U256 = nat
  type Bytecode = seq<bv8>

  /** The default `B256`; the hash of no block. */
  const ZERO_HASH: B256 := 0

  /** Block bodies are opaque to the state layer. */
  datatype Header = Header(id: nat)
  datatype Withdrawals = Withdrawals(id: nat)
  datatype Receipt = Receipt(id: nat)

  datatype AccountInfo = AccountInfo(balance: U256, nonce: nat, codeHash: B256)

  datatype SimError =
    | FetcherClosed
    | FetchTimeout
    | StaleState
    | MissingAddressHint(codeHash: B256)
    | CodeHashMismatch(address: Address, expected: B256, actual: B256)
    | BlockNotFound(block: nat)
    | Rpc

  datatype AccountRequest = AccountRequest(address: Address, block: nat, blockHash: B256)
  datatype CodeRequest = CodeRequest(codeHash: B256, block: nat, addressHint: Option<Address>)
  datatype CodeRegistration = CodeRegistration(codeHash: B256, address: Address)
  datatype StorageRequest = StorageRequest(address: Address, index: U256, block: nat, blockHash: B256)
  datatype BlockHashRequest = BlockHashRequest(number: nat, atBlockHash: B256)

  /** What a manager hands over at a flush: the values it fetched and the block hash they belong to. */
  datatype TaggedCache<K, V> = TaggedCache(blockHash: B256, data: map<K, V>)
  {
    predicate IsValidFor(hash: B256) {
      data == map[] || blockHash == hash
    }
  }

  datatype Caches = Caches(
    accounts: TaggedCache<Address, AccountInfo>,
    code: map<B256, Bytecode>,
    storage: TaggedCache<(Address, U256), U256>,
    blockHashes: TaggedCache<nat, B256>)

  /** Four caches with nothing in them. */
  const NO_CACHES: Caches :=
    Caches(TaggedCache(ZERO_HASH, map[]), map[], TaggedCache(ZERO_HASH, map[]), TaggedCache(ZERO_HASH, map[]))
}
